/** The desired set of previews: one entry per service per work id. Instants are
    integers and 0 is the zero time. */
module Registry {
  import Text

  datatype ServiceKey = ServiceKey(workID: string, ns: string, workload: string)

  // What the manager last said of an intercept.
  datatype Status = Status(disposition: string, message: string)

  // A preview as a value: what an object of class Preview holds at one moment.
  datatype Entry = Entry(
    workID: string, ns: string, workload: string, name: string, global: bool, schedule: string,
    portID: string, targetService: string, targetPort: int, image: string,
    raisedAt: int, expiresAt: int, status: Status, agentPods: seq<string>, reported: nat)

  type Table = map<ServiceKey, Entry>

  function KeyOf(e: Entry): ServiceKey { ServiceKey(e.workID, e.ns, e.workload) }

  function AgentKey(e: Entry): string { e.workload + "." + e.ns }

  predicate SharesWorkload(a: Entry, b: Entry) { a.workload == b.workload && a.ns == b.ns }

  // Previews are in namespaces, whose names have no dot.
  predicate DotFree(r: Table) { forall k :: k in r ==> '.' !in r[k].ns }

  /** A workload's key says which workload and namespace it is of. */
  lemma AgentKeyInjective(a: Entry, b: Entry)
    requires '.' !in a.ns && '.' !in b.ns
    ensures AgentKey(a) == AgentKey(b) <==> SharesWorkload(a, b)
  {
    if AgentKey(a) == AgentKey(b) {
      Text.LastDot(a.workload, a.ns, b.workload, b.ns);
    }
  }

  // --- the operations on values -----------------------------------------------------------

  predicate NameTaken(r: Table, e: Entry) {
    exists k :: k in r && r[k].name == e.name && k != KeyOf(e)
  }

  // The age of a preview is that of its first appearance.
  function Stamped(r: Table, e: Entry, now: int): Entry {
    if KeyOf(e) in r && r[KeyOf(e)].raisedAt != 0 then e.(raisedAt := r[KeyOf(e)].raisedAt)
    else if e.raisedAt == 0 then e.(raisedAt := now)
    else e
  }

  function Added(r: Table, e: Entry, now: int): Table { r[KeyOf(e) := Stamped(r, e, now)] }

  // A live entry of another key on the same workload running in the other mode.
  predicate Conflicts(r: Table, e: Entry, k: ServiceKey)
    requires k in r
  {
    k != KeyOf(e) && AgentKey(r[k]) == AgentKey(e) && r[k].global != e.global
  }

  predicate InConflict(r: Table, e: Entry) { exists k :: k in r && Conflicts(r, e, k) }

  function TouchedEntry(e: Entry, workID: string, until: int): Entry {
    if e.workID == workID && e.schedule == "" then e.(expiresAt := until) else e
  }

  function Touched(r: Table, workID: string, until: int): Table {
    map k | k in r :: TouchedEntry(r[k], workID, until)
  }

  function WithoutWork(r: Table, workID: string): Table { map k | k in r && k.workID != workID :: r[k] }

  function TunnelledEntry(e: Entry, agentKey: string, pods: seq<string>, reported: nat): Entry {
    if AgentKey(e) == agentKey then e.(agentPods := pods, reported := reported) else e
  }

  function Tunnelled(r: Table, agentKey: string, pods: seq<string>, reported: nat): Table {
    map k | k in r :: TunnelledEntry(r[k], agentKey, pods, reported)
  }

  function StatusEntry(e: Entry, name: string, status: Status): Entry {
    if e.name == name then e.(status := status) else e
  }

  function Noted(r: Table, name: string, status: Status): Table {
    map k | k in r :: StatusEntry(r[k], name, status)
  }

  predicate PastDeadline(e: Entry, now: int) { e.expiresAt != 0 && e.expiresAt <= now }

  // The work ids with a preview past its deadline.
  function DueIn(r: Table, now: int): set<string> { set k | k in r && PastDeadline(r[k], now) :: k.workID }

  function NamespacesOf(r: Table, workID: string): set<string> {
    set k | k in r && k.workID == workID :: k.ns
  }

  // --- objects ----------------------------------------------------------------------------------

  class Preview {
    const workID: string
    const ns: string
    const workload: string
    const name: string
    const global: bool
    const schedule: string
    const portID: string
    const targetService: string
    const targetPort: int
    const image: string
    var raisedAt: int
    var expiresAt: int
    var status: Status
    var agentPods: seq<string>
    var reported: nat

    constructor (e: Entry)
      ensures Value() == e
    {
      workID, ns, workload, name := e.workID, e.ns, e.workload, e.name;
      global, schedule, portID := e.global, e.schedule, e.portID;
      targetService, targetPort, image := e.targetService, e.targetPort, e.image;
      raisedAt, expiresAt, status := e.raisedAt, e.expiresAt, e.status;
      agentPods, reported := e.agentPods, e.reported;
    }

    function Key(): ServiceKey { ServiceKey(workID, ns, workload) }

    // The manager's report, if it is this intercept's.
    method Note(name: string, status: Status)
      modifies this`status
      ensures Value() == StatusEntry(old(Value()), name, status)
    {
      if this.name == name {
        this.status := status;
      }
    }

    // Its workload's tunnels, if it is this workload's.
    method Tunnel(agentKey: string, pods: seq<string>, reported: nat)
      modifies this`agentPods, this`reported
      ensures Value() == TunnelledEntry(old(Value()), agentKey, pods, reported)
    {
      if workload + "." + ns == agentKey {
        agentPods, this.reported := pods, reported;
      }
    }

    function Value(): Entry
      reads this
    {
      Entry(workID, ns, workload, name, global, schedule, portID, targetService, targetPort, image,
            raisedAt, expiresAt, status, agentPods, reported)
    }
  }

  // An entry's object the walk has passed and taken out.
  ghost predicate TakenOut(was: map<ServiceKey, Preview>, walk: set<ServiceKey>, workID: string, p: Preview) {
    exists k :: k in was && k !in walk && was[k] == p && k.workID == workID
  }

  lemma TakenOutNext(was: map<ServiceKey, Preview>, walk: set<ServiceKey>, workID: string, k: ServiceKey)
    requires k in was && k in walk
    ensures forall p :: TakenOut(was, walk - {k}, workID, p) <==>
                        TakenOut(was, walk, workID, p) || (p == was[k] && k.workID == workID)
  {
  }

  class Registry {
    var byKey: map<ServiceKey, Preview>

    constructor ()
      ensures Valid() && Contents() == map[] && byKey == map[]
    {
      byKey := map[];
    }

    // Every object stands under its own key, so no object stands under two.
    ghost predicate Valid()
      reads this
    {
      forall k :: k in byKey ==> byKey[k].Key() == k
    }

    ghost function Contents(): Table
      reads this, byKey.Values
    {
      map k | k in byKey :: byKey[k].Value()
    }

    // Whether another service already has this preview's intercept name.
    method NameClash(p: Preview) returns (clash: bool)
      requires Valid()
      ensures clash == NameTaken(Contents(), p.Value())
    {
      var walk := byKey.Keys;
      while walk != {}
        invariant walk <= byKey.Keys
        invariant forall k :: k in byKey && k !in walk ==> !(byKey[k].name == p.name && k != p.Key())
      {
        var k :| k in walk;
        walk := walk - {k};
        if byKey[k].name == p.name && k != p.Key() {
          assert Contents()[k].name == p.Value().name;
          return true;
        }
      }
      return false;
    }

    // A preview's age is that of its first appearance, not of the latest update.
    method FirstSeen(p: Preview, now: int) returns (at: int)
      requires Valid()
      ensures Stamped(Contents(), p.Value(), now) == p.Value().(raisedAt := at)
    {
      if p.Key() in byKey && byKey[p.Key()].raisedAt != 0 {
        at := byKey[p.Key()].raisedAt;
      } else if p.raisedAt == 0 {
        at := now;
      } else {
        at := p.raisedAt;
      }
    }

    /** Takes the object in, unless another service already has its intercept name. */
    method Add(p: Preview, now: int) returns (ok: bool)
      requires Valid() && p !in byKey.Values
      modifies this, p`raisedAt
      ensures Valid()
      ensures ok == !NameTaken(old(Contents()), old(p.Value()))
      ensures byKey == if ok then old(byKey)[p.Key() := p] else old(byKey)
      ensures Contents() == if ok then Added(old(Contents()), old(p.Value()), now) else old(Contents())
      ensures !ok ==> p.raisedAt == old(p.raisedAt)
    {
      var clash := NameClash(p);
      if clash {
        return false;
      }
      var at := FirstSeen(p, now);
      ghost var was := Contents();
      p.raisedAt := at;
      assert Contents() == was;
      Put(p);
      return true;
    }

    method Put(p: Preview)
      requires Valid()
      modifies this
      ensures Valid() && byKey == old(byKey)[p.Key() := p] && Contents() == old(Contents())[p.Key() := p.Value()]
    {
      byKey := byKey[p.Key() := p];
    }

    /** A live intercept on the same workload in the other mode, if there is one. */
    method ConflictingMode(e: Entry) returns (other: Preview?)
      requires Valid()
      ensures (other != null) == InConflict(Contents(), e)
      ensures other != null ==> other in byKey.Values && Conflicts(Contents(), e, other.Key())
    {
      var walk := byKey.Keys;
      while walk != {}
        invariant walk <= byKey.Keys
        invariant forall k :: k in byKey && k !in walk ==> !Conflicts(Contents(), e, k)
      {
        var k :| k in walk;
        walk := walk - {k};
        var ex := byKey[k];
        if k == KeyOf(e) || ex.workload + "." + ex.ns != AgentKey(e) || ex.global == e.global {
          continue;
        }
        assert Conflicts(Contents(), e, k);
        return ex;
      }
      return null;
    }

    method RemoveService(k: ServiceKey) returns (p: Preview?)
      requires Valid()
      modifies this
      ensures Valid() && byKey == old(byKey) - {k} && Contents() == old(Contents()) - {k}
      ensures p == if k in old(byKey) then old(byKey)[k] else null
    {
      p := if k in byKey then byKey[k] else null;
      byKey := byKey - {k};
    }

    method RemoveWork(workID: string) returns (out: seq<Preview>)
      requires Valid()
      modifies this
      ensures Valid() && byKey == (map k | k in old(byKey) && k.workID != workID :: old(byKey)[k])
      ensures Contents() == WithoutWork(old(Contents()), workID)
      ensures forall p :: p in out <==> p in old(byKey.Values) && p.workID == workID
    {
      ghost var was := byKey;
      var walk := byKey.Keys;
      out := [];
      while walk != {}
        invariant walk <= was.Keys
        invariant byKey == map k | k in was && (k in walk || k.workID != workID) :: was[k]
        invariant forall p :: p in out <==> TakenOut(was, walk, workID, p)
      {
        var k :| k in walk;
        TakenOutNext(was, walk, workID, k);
        walk := walk - {k};
        if k.workID == workID {
          out := out + [byKey[k]];
          byKey := byKey - {k};
        }
      }
    }

    /** Extends every service of a work id, and no scheduled intercept. */
    method Touch(workID: string, until: int)
      requires Valid()
      modifies byKey.Values`expiresAt
      ensures Contents() == Touched(old(Contents()), workID, until)
    {
      var walk := byKey.Keys;
      while walk != {}
        invariant walk <= byKey.Keys
        invariant forall k | k in byKey ::
          var e := old(byKey[k].Value()); byKey[k].Value() == if k in walk then e else TouchedEntry(e, workID, until)
      {
        var k :| k in walk;
        walk := walk - {k};
        var p := byKey[k];
        if p.workID == workID && p.schedule == "" {
          p.expiresAt := until;
        }
      }
    }

    /** The workloads some preview needs, each once. */
    method AgentKeyList() returns (out: set<string>)
      requires Valid()
      ensures forall a :: a in out <==> exists k :: k in byKey && AgentKey(byKey[k].Value()) == a
    {
      var walk := byKey.Keys;
      out := {};
      while walk != {}
        invariant walk <= byKey.Keys
        invariant forall a :: a in out <==> exists k :: k in byKey && k !in walk && AgentKey(byKey[k].Value()) == a
      {
        var k :| k in walk;
        walk := walk - {k};
        out := out + {byKey[k].workload + "." + byKey[k].ns};
      }
    }

    method SetAgentPods(agentKey: string, pods: seq<string>, reported: nat)
      requires Valid()
      modifies byKey.Values`agentPods, byKey.Values`reported
      ensures Contents() == Tunnelled(old(Contents()), agentKey, pods, reported)
    {
      var walk := byKey.Keys;
      while walk != {}
        invariant walk <= byKey.Keys
        invariant forall k | k in byKey ::
          var e := old(byKey[k].Value());
          byKey[k].Value() == if k in walk then e else TunnelledEntry(e, agentKey, pods, reported)
      {
        var k :| k in walk;
        walk := walk - {k};
        byKey[k].Tunnel(agentKey, pods, reported);
      }
    }

    method SetStatus(name: string, status: Status)
      requires Valid()
      modifies byKey.Values`status
      ensures Contents() == Noted(old(Contents()), name, status)
    {
      var walk := byKey.Keys;
      while walk != {}
        invariant walk <= byKey.Keys
        invariant forall k | k in byKey ::
          var e := old(byKey[k].Value()); byKey[k].Value() == if k in walk then e else StatusEntry(e, name, status)
      {
        var k :| k in walk;
        walk := walk - {k};
        byKey[k].Note(name, status);
      }
    }

    method Namespaces(workID: string) returns (out: seq<string>)
      requires Valid()
      ensures forall ns :: ns in out <==> ns in NamespacesOf(Contents(), workID)
      ensures forall i, j :: 0 <= i < j < |out| ==> out[i] != out[j]
    {
      var walk := byKey.Keys;
      out := [];
      while walk != {}
        invariant walk <= byKey.Keys
        invariant forall ns :: ns in out <==> exists k :: k in byKey && k !in walk && k.workID == workID && k.ns == ns
        invariant forall i, j :: 0 <= i < j < |out| ==> out[i] != out[j]
      {
        var k :| k in walk;
        walk := walk - {k};
        if k.workID == workID && k.ns !in out {
          out := out + [k.ns];
        }
      }
    }

    /** The work ids with a preview past its deadline, each once. */
    method Expired(now: int) returns (out: seq<string>)
      requires Valid()
      ensures forall id :: id in out <==> id in DueIn(Contents(), now)
      ensures forall i, j :: 0 <= i < j < |out| ==> out[i] != out[j]
    {
      var walk := byKey.Keys;
      out := [];
      while walk != {}
        invariant walk <= byKey.Keys
        invariant forall id :: id in out <==>
                    exists k :: k in byKey && k !in walk && k.workID == id && PastDeadline(byKey[k].Value(), now)
        invariant forall i, j :: 0 <= i < j < |out| ==> out[i] != out[j]
      {
        var k :| k in walk;
        walk := walk - {k};
        var p := byKey[k];
        if p.expiresAt != 0 && p.expiresAt <= now && p.workID !in out {
          out := out + [p.workID];
        }
      }
    }
  }
}
