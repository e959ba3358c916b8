/** What the API handlers and the intercept schedules' ticks do to the registry,
    one handler or tick at a time. */
module Handlers {
  import opened Registry
  import opened Cluster

  // --- the API's handlers, as functions of the table ---------------------------------------

  // What a POST meets: is there a session, did the build work, did the raise, and
  // what the manager reported.
  datatype AddWorld = AddWorld(session: bool, built: bool, raised: bool, status: Status, now: int)

  datatype Reply = Reserved | WrongMode | NoSession | BuildFailed | Unchanged | Rolled
                 | NameClash | RaiseFailed | Raised

  datatype Config = Config(reserved: set<string>, lifetime: int)

  function Extended(r: Table, cfg: Config, workID: string, now: int): Table {
    if cfg.lifetime <= 0 then r else Touched(r, workID, now + cfg.lifetime)
  }

  predicate SameTarget(prev: Entry, e: Entry) {
    prev.targetService == e.targetService && prev.targetPort == e.targetPort && prev.portID == e.portID
  }

  // The live intercept's state carried onto the new record.
  function Carried(prev: Entry, e: Entry): Entry {
    e.(status := prev.status, agentPods := prev.agentPods, reported := prev.reported)
  }

  // Registered before it is raised, and taken out again if the raise fails.
  function RegisterAndRaise(r: Table, e: Entry, cfg: Config, w: AddWorld): (Table, Reply) {
    if NameTaken(r, e) then (r, NameClash)
    else
      var r1 := Added(r, e, w.now);
      if !w.raised then (r1 - {KeyOf(e)}, RaiseFailed)
      else (Extended(Noted(r1, e.name, w.status), cfg, e.workID, w.now), Raised)
  }

  function RolledForward(r: Table, prev: Entry, e: Entry, cfg: Config, w: AddWorld): (Table, Reply) {
    if NameTaken(r, Carried(prev, e)) then (r, NameClash)
    else (Extended(Added(r, Carried(prev, e), w.now), cfg, e.workID, w.now), Rolled)
  }

  function AddHandled(r: Table, e: Entry, cfg: Config, w: AddWorld): (Table, Reply) {
    var k := KeyOf(e);
    if e.workID in cfg.reserved then (r, Reserved)
    else if InConflict(r, e) then (r, WrongMode)
    else if !w.session then (r, NoSession)
    else if !w.built then (r, BuildFailed)
    else if k in r && SameTarget(r[k], e) then
      if r[k].image == e.image then (Extended(r, cfg, e.workID, w.now), Unchanged)
      else RolledForward(r, r[k], e, cfg, w)
    else RegisterAndRaise(r - {k}, e, cfg, w)
  }

  function RemoveWorkHandled(r: Table, cfg: Config, workID: string): Table {
    if workID in cfg.reserved then r else WithoutWork(r, workID)
  }

  function RemoveServiceHandled(r: Table, cfg: Config, k: ServiceKey): Table {
    if k.workID in cfg.reserved then r else r - {k}
  }

  // --- the intercept schedules --------------------------------------------------------------

  datatype Trouble = NoTrouble | NoSessionYet | Conflicting | Registering | Raising | SessionGone
                   | Asking | NoTunnel | TooFewTunnels | ClosingFailed

  // since and raisedAt are 0 when they have never been set.
  datatype IState = IState(open: bool, up: bool, since: int, problem: Trouble,
                           raises: nat, reRaises: nat, raisedAt: int)

  const FRESH := IState(false, false, 0, NoTrouble, 0, 0, 0)

  // A compiled intercept schedule: its name is its work id.
  datatype Scheduled = Scheduled(name: string, ns: string, workload: string, interceptName: string,
                                 portID: string, targetService: string, targetPort: int)

  function ScheduleEntry(sc: Scheduled): Entry {
    Entry(sc.name, sc.ns, sc.workload, sc.interceptName, true, sc.name, sc.portID, sc.targetService,
          sc.targetPort, "", 0, 0, Status("PENDING", ""), [], 0)
  }

  function ScheduleKey(sc: Scheduled): ServiceKey { ServiceKey(sc.name, sc.ns, sc.workload) }

  datatype Disposition = Active | Waiting | Unhealthy

  datatype Answer = NotFound | AskFailed | Got(disposition: Disposition, shown: Status)

  // What a tick meets: the session, the health check's answer, whether its context
  // ended under it, and how a raise or a remove would go.
  datatype TickWorld = TickWorld(session: bool, answer: Answer, cancelled: bool, sessionNow: bool,
                                 raised: bool, shown: Status, removed: bool)

  // The grace a raise has: raiseGrace, ninety seconds.
  const GRACE := 90_000_000_000

  function OpenedWindow(r: Table, st: IState, sc: Scheduled, session: bool, raised: bool, shown: Status, now: int)
    : (Table, IState)
  {
    var e := ScheduleEntry(sc);
    var down := st.(up := false);
    if !session then (r, down.(problem := NoSessionYet))
    else if InConflict(r, e) then (r, down.(problem := Conflicting))
    else RaisedWindow(r, st, e, raised, shown, now)
  }

  function RaisedWindow(r: Table, st: IState, e: Entry, raised: bool, shown: Status, now: int): (Table, IState) {
    var down := st.(up := false);
    if NameTaken(r, e) then (r, down.(problem := Registering))
    else
      var r1 := Added(r, e, now);
      if !raised then (r1 - {KeyOf(e)}, down.(problem := Raising))
      else (Noted(r1, e.name, shown),
            st.(up := true, problem := NoTrouble, raisedAt := now, raises := st.raises + 1))
  }

  function ReRaised(r: Table, st: IState, sc: Scheduled, w: TickWorld, now: int): (Table, IState) {
    OpenedWindow(r - {ScheduleKey(sc)}, st.(up := false, reRaises := st.reRaises + 1), sc,
                 w.sessionNow, w.raised, w.shown, now)
  }

  function CheckedWindow(r: Table, st: IState, sc: Scheduled, w: TickWorld, now: int): (Table, IState)
    requires ScheduleKey(sc) in r
  {
    var p := r[ScheduleKey(sc)];
    var late := now - st.raisedAt > GRACE;
    if !w.session then (r, st.(up := false, problem := SessionGone))
    else match w.answer
      case NotFound => ReRaised(r, st, sc, w, now)
      case AskFailed => if w.cancelled then (r, st) else (r, st.(problem := Asking))
      case Got(disposition, shown) =>
        var r1 := Noted(r, p.name, shown);
        if disposition.Active? then
          if p.agentPods == [] && late then (r1, st.(up := false, problem := NoTunnel))
          else if 0 < |p.agentPods| < p.reported && late then (r1, st.(up := false, problem := TooFewTunnels))
          else (r1, st.(up := true, problem := NoTrouble))
        else if disposition.Waiting? && !late then (r1, st.(up := true))
        else ReRaised(r1, st, sc, w, now)
  }

  function ClosedWindow(r: Table, st: IState, sc: Scheduled, removed: bool): (Table, IState) {
    (r - {ScheduleKey(sc)}, st.(up := false, problem := if removed then NoTrouble else ClosingFailed))
  }

  function EnteredWindow(st: IState, want: bool, now: int): IState {
    if st.since == 0 || want != st.open then st.(open := want, since := now) else st
  }

  function Ticked(r: Table, st0: IState, sc: Scheduled, want: bool, w: TickWorld, now: int): (Table, IState) {
    TickedWindow(r, EnteredWindow(st0, want, now), sc, want, w, now)
  }

  function TickedWindow(r: Table, st: IState, sc: Scheduled, want: bool, w: TickWorld, now: int): (Table, IState) {
    var held := ScheduleKey(sc) in r;
    if want && !held then OpenedWindow(r, st, sc, w.session, w.raised, w.shown, now)
    else if want then CheckedWindow(r, st, sc, w, now)
    else if held then ClosedWindow(r, st, sc, w.removed)
    else (r, st.(up := false, problem := NoTrouble))
  }

  datatype Removal = RemovalReserved | NothingLive | Removed

  // A deletion that was sent and heard to have worked.
  predicate Reported(allowed: seq<string>, sel: Selector, list: Lister, delete: Deleter, r: Ref) {
    Targeted(allowed, sel, list, r) && delete(r) == Deleted
  }

  lemma SomeRemoved(byKey: map<ServiceKey, Preview>, r: Table, workID: string, removed: seq<Preview>)
    requires r.Keys == byKey.Keys && forall k :: k in byKey ==> byKey[k].Key() == k
    requires forall p :: p in removed <==> p in byKey.Values && p.workID == workID
    ensures removed == [] <==> NamespacesOf(r, workID) == {}
  {
    if removed != [] {
      assert removed[0] in removed;
      var k :| k in byKey && byKey[k] == removed[0];
      assert k.ns in NamespacesOf(r, workID);
    }
    if ns :| ns in NamespacesOf(r, workID) {
      var k :| k in r && k.workID == workID;
      assert byKey[k] in removed;
    }
  }

  // --- the server ---------------------------------------------------------------------------------

  class Server {
    const reg: Registry
    const cluster: Cluster
    const allowed: seq<string>
    const cfg: Config
    var states: map<string, IState>

    constructor (cfg: Config, cluster: Cluster, allowed: seq<string>)
      ensures this.cfg == cfg && this.cluster == cluster && this.allowed == allowed
      ensures states == map[] && fresh(reg) && reg.Valid() && reg.Contents() == map[]
    {
      this.cfg, this.cluster, this.allowed := cfg, cluster, allowed;
      states := map[];
      reg := new Registry();
    }

    function StateOf(name: string): IState
      reads this
    {
      if name in states then states[name] else FRESH
    }

    method Extend(workID: string, now: int)
      requires reg.Valid()
      modifies reg.byKey.Values`expiresAt
      ensures reg.Contents() == Extended(old(reg.Contents()), cfg, workID, now)
    {
      if cfg.lifetime <= 0 {
        return;
      }
      reg.Touch(workID, now + cfg.lifetime);
    }

    method HandleAdd(e: Entry, w: AddWorld) returns (reply: Reply)
      requires reg.Valid()
      modifies reg, reg.byKey.Values
      ensures reg.Valid()
      ensures (reg.Contents(), reply) == AddHandled(old(reg.Contents()), e, cfg, w)
    {
      if e.workID in cfg.reserved {
        return Reserved;
      }
      var other := reg.ConflictingMode(e);
      if other != null {
        return WrongMode;
      }
      if !w.session {
        return NoSession;
      }
      if !w.built {
        return BuildFailed;
      }
      var k := KeyOf(e);
      if k in reg.byKey {
        var prev := reg.byKey[k];
        if SameTarget(prev.Value(), e) {
          if prev.image == e.image {
            Extend(e.workID, w.now);
            return Unchanged;
          }
          reply := Roll(prev, e, w);
          return;
        }
        var gone := reg.RemoveService(k);
      } else {
        assert reg.Contents() - {k} == reg.Contents();
      }
      reply := Register(e, w);
    }

    // The image moved and the intercept did not.
    method Roll(prev: Preview, e: Entry, w: AddWorld) returns (reply: Reply)
      requires reg.Valid()
      modifies reg, reg.byKey.Values
      ensures reg.Valid()
      ensures (reg.Contents(), reply) == RolledForward(old(reg.Contents()), old(prev.Value()), e, cfg, w)
    {
      var p := new Preview(Carried(prev.Value(), e));
      var ok := reg.Add(p, w.now);
      if !ok {
        return NameClash;
      }
      Extend(e.workID, w.now);
      return Rolled;
    }

    method Register(e: Entry, w: AddWorld) returns (reply: Reply)
      requires reg.Valid()
      modifies reg, reg.byKey.Values
      ensures reg.Valid()
      ensures (reg.Contents(), reply) == RegisterAndRaise(old(reg.Contents()), e, cfg, w)
    {
      var p := new Preview(e);
      var ok := reg.Add(p, w.now);
      if !ok {
        return NameClash;
      }
      if !w.raised {
        var gone := reg.RemoveService(p.Key());
        return RaiseFailed;
      }
      reg.SetStatus(p.name, w.status);
      Extend(e.workID, w.now);
      return Raised;
    }

    /** DELETE of a work id: its entries, then every object built for it. */
    method HandleRemoveWork(workID: string, list: Lister, delete: Deleter)
      returns (reply: Removal, removed: seq<Preview>, deleted: seq<Ref>)
      requires reg.Valid()
      modifies reg, cluster
      ensures reg.Valid() && reg.Contents() == RemoveWorkHandled(old(reg.Contents()), cfg, workID)
      ensures cluster.objs == if workID in cfg.reserved then old(cluster.objs)
                              else Dropped(old(cluster.objs), allowed, Selector(workID, ""), list, delete)
      ensures forall r :: r in deleted <==>
                workID !in cfg.reserved && Reported(allowed, Selector(workID, ""), list, delete, r)
      ensures reply == if workID in cfg.reserved then RemovalReserved
                       else if NamespacesOf(old(reg.Contents()), workID) == {} && deleted == []
                       then NothingLive else Removed
    {
      if workID in cfg.reserved {
        return RemovalReserved, [], [];
      }
      ghost var was, r := reg.byKey, reg.Contents();
      removed := reg.RemoveWork(workID);
      SomeRemoved(was, r, workID, removed);
      ghost var left := reg.Contents();
      var problems;
      deleted, problems := cluster.DropWorkload(allowed, workID, "", list, delete);
      assert reg.Contents() == left;
      reply := if |removed| > 0 || |deleted| > 0 then Removed else NothingLive;
    }

    /** DELETE of one service: its entry, then what was built for its work id and
        workload - in every allowed namespace. */
    method HandleRemoveService(k: ServiceKey, list: Lister, delete: Deleter)
      returns (reply: Removal, removed: Preview?, deleted: seq<Ref>)
      requires reg.Valid()
      modifies reg, cluster
      ensures reg.Valid() && reg.Contents() == RemoveServiceHandled(old(reg.Contents()), cfg, k)
      ensures cluster.objs == if k.workID in cfg.reserved then old(cluster.objs)
                              else Dropped(old(cluster.objs), allowed, Selector(k.workID, k.workload), list, delete)
      ensures forall r :: r in deleted <==>
                k.workID !in cfg.reserved && Reported(allowed, Selector(k.workID, k.workload), list, delete, r)
      ensures reply == if k.workID in cfg.reserved then RemovalReserved
                       else if k !in old(reg.byKey) && deleted == [] then NothingLive else Removed
    {
      if k.workID in cfg.reserved {
        return RemovalReserved, null, [];
      }
      removed := reg.RemoveService(k);
      ghost var left := reg.Contents();
      var problems;
      deleted, problems := cluster.DropWorkload(allowed, k.workID, k.workload, list, delete);
      assert reg.Contents() == left;
      reply := if removed == null && |deleted| == 0 then NothingLive else Removed;
    }

    method OpenWindow(sc: Scheduled, st: IState, session: bool, raised: bool, shown: Status, now: int)
      returns (out: IState)
      requires reg.Valid()
      modifies reg, reg.byKey.Values
      ensures reg.Valid()
      ensures (reg.Contents(), out) == OpenedWindow(old(reg.Contents()), st, sc, session, raised, shown, now)
    {
      var down := st.(up := false);
      if !session {
        return down.(problem := NoSessionYet);
      }
      var e := ScheduleEntry(sc);
      var other := reg.ConflictingMode(e);
      if other != null {
        return down.(problem := Conflicting);
      }
      out := RaiseWindow(e, st, raised, shown, now);
    }

    // A new object for the entry, in the registry unless its name is taken.
    method TakeIn(e: Entry, now: int) returns (p: Preview, ok: bool)
      requires reg.Valid()
      modifies reg
      ensures reg.Valid() && fresh(p) && p.Key() == KeyOf(e) && p.name == e.name
      ensures ok == !NameTaken(old(reg.Contents()), e)
      ensures reg.byKey == if ok then old(reg.byKey)[KeyOf(e) := p] else old(reg.byKey)
      ensures reg.Contents() == if ok then Added(old(reg.Contents()), e, now) else old(reg.Contents())
    {
      p := new Preview(e);
      ok := reg.Add(p, now);
    }

    // Registered before it is raised, so a session lost in between leaves something to
    // raise again.
    method RaiseWindow(e: Entry, st: IState, raised: bool, shown: Status, now: int) returns (out: IState)
      requires reg.Valid()
      modifies reg, reg.byKey.Values
      ensures reg.Valid()
      ensures (reg.Contents(), out) == RaisedWindow(old(reg.Contents()), st, e, raised, shown, now)
    {
      var p, ok := TakeIn(e, now);
      if !ok {
        return st.(up := false, problem := Registering);
      }
      if !raised {
        var gone := reg.RemoveService(p.Key());
        return st.(up := false, problem := Raising);
      }
      reg.SetStatus(p.name, shown);
      return st.(up := true, problem := NoTrouble, raisedAt := now, raises := st.raises + 1);
    }

    method ReRaise(sc: Scheduled, st: IState, w: TickWorld, now: int) returns (out: IState)
      requires reg.Valid()
      modifies reg, reg.byKey.Values
      ensures reg.Valid()
      ensures (reg.Contents(), out) == ReRaised(old(reg.Contents()), st, sc, w, now)
    {
      var gone := reg.RemoveService(ScheduleKey(sc));
      out := OpenWindow(sc, st.(up := false, reRaises := st.reRaises + 1), w.sessionNow, w.raised, w.shown, now);
    }

    method CheckWindow(sc: Scheduled, st: IState, w: TickWorld, now: int) returns (out: IState)
      requires reg.Valid() && ScheduleKey(sc) in reg.byKey
      modifies reg, reg.byKey.Values
      ensures reg.Valid()
      ensures (reg.Contents(), out) == CheckedWindow(old(reg.Contents()), st, sc, w, now)
    {
      var p := reg.byKey[ScheduleKey(sc)];
      if !w.session {
        return st.(up := false, problem := SessionGone);
      }
      if w.answer.NotFound? {
        out := ReRaise(sc, st, w, now);
        return;
      }
      if w.answer.AskFailed? {
        return if w.cancelled then st else st.(problem := Asking);
      }
      reg.SetStatus(p.name, w.answer.shown);
      var late := now - st.raisedAt > GRACE;
      if w.answer.disposition.Active? {
        if |p.agentPods| == 0 && late {
          return st.(up := false, problem := NoTunnel);
        }
        if 0 < |p.agentPods| < p.reported && late {
          return st.(up := false, problem := TooFewTunnels);
        }
        return st.(up := true, problem := NoTrouble);
      }
      if w.answer.disposition.Waiting? && !late {
        return st.(up := true);
      }
      out := ReRaise(sc, st, w, now);
    }

    method CloseWindow(sc: Scheduled, st: IState, removed: bool) returns (out: IState)
      requires reg.Valid()
      modifies reg
      ensures reg.Valid()
      ensures (reg.Contents(), out) == ClosedWindow(old(reg.Contents()), st, sc, removed)
    {
      var gone := reg.RemoveService(ScheduleKey(sc));
      return st.(up := false, problem := if removed then NoTrouble else ClosingFailed);
    }

    method TickWindow(sc: Scheduled, st: IState, want: bool, w: TickWorld, now: int) returns (out: IState)
      requires reg.Valid()
      modifies reg, reg.byKey.Values
      ensures reg.Valid()
      ensures (reg.Contents(), out) == TickedWindow(old(reg.Contents()), st, sc, want, w, now)
    {
      var held := ScheduleKey(sc) in reg.byKey;
      if want && !held {
        out := OpenWindow(sc, st, w.session, w.raised, w.shown, now);
      } else if want {
        out := CheckWindow(sc, st, w, now);
      } else if held {
        out := CloseWindow(sc, st, w.removed);
      } else {
        out := st.(up := false, problem := NoTrouble);
      }
    }

    method ReconcileSchedule(sc: Scheduled, want: bool, w: TickWorld, now: int)
      requires reg.Valid()
      modifies this`states, reg, reg.byKey.Values
      ensures reg.Valid()
      ensures sc.name in states && states == old(states)[sc.name := states[sc.name]]
      ensures var was := if sc.name in old(states) then old(states)[sc.name] else FRESH;
        (reg.Contents(), states[sc.name]) == Ticked(old(reg.Contents()), was, sc, want, w, now)
    {
      var entered := EnteredWindow(StateOf(sc.name), want, now);
      var st := TickWindow(sc, entered, want, w, now);
      ghost var r := reg.Contents();
      states := states[sc.name := st];
      assert reg.Contents() == r;
    }
  }
}
