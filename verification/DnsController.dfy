/** The DNS-redirect schedule controller: one tick reconciles one schedule against
    the ConfigMap, whose calls may succeed, fail, or fail after taking effect. */
module DnsController {
  import opened Text
  import opened HostsText

  // What the controller last could not do; NoProblem is the empty string.
  datatype Problem = NoProblem | Opening | Checking | ReApplying | Sweeping | Closing

  // Instants are integers; Never is the zero time.
  datatype Instant = Never | At(t: int)

  // The controller's memory of one schedule, as the map of states keeps it.
  datatype State = State(open: bool, up: bool, since: Instant, problem: Problem,
                         raises: nat, reRaises: nat, raisedAt: Instant,
                         applied: bool, swept: bool, recycles: nat)

  const FRESH := State(false, false, Never, NoProblem, 0, 0, Never, false, false, 0)

  // How an update of the ConfigMap ends. A conflicting edit between the read and
  // the update is refused by its resource version, and so is Rejected.
  datatype Put = Stored | Rejected | StoredUnheard

  // The fate of one tick's calls: the drift check's read, then the
  // read-modify-write's get and update.
  datatype Api = Api(read: bool, get: bool, put: Put)

  const WORKING := Api(true, true, Stored)

  // --- the tick, as a function of the state and the text ------------------------------

  datatype Written = Written(text: string, changed: bool, ok: bool)

  function WriteLine(text: string, sc: Redirect, present: bool, api: Api): Written {
    var (next, changed) := if present then Apply(text, HostsLine(sc), HostsTag(sc.name))
                           else Remove(text, HostsTag(sc.name));
    if !api.get then Written(text, false, false)
    else if !changed then Written(text, false, true)
    else match api.put
      case Stored => Written(next, true, true)
      case Rejected => Written(text, false, false)
      case StoredUnheard => Written(next, false, false)
  }

  function Opened(st: State, w: Written, now: int): State {
    if !w.ok then st.(up := false, applied := false, swept := false, problem := Opening)
    else st.(up := true, applied := true, swept := true, problem := NoProblem, raisedAt := At(now),
             raises := st.raises + 1, recycles := st.recycles + if w.changed then 1 else 0)
  }

  function Drifted(st: State, w: Written, now: int): State {
    var s := st.(up := false, reRaises := st.reRaises + 1);
    if !w.ok then s.(applied := false, swept := false, problem := ReApplying)
    else s.(applied := true, up := true, swept := true, problem := NoProblem, raisedAt := At(now))
  }

  function Closed(st: State, w: Written, sweep: bool): State {
    if !w.ok then st.(up := false, problem := if sweep then Sweeping else Closing)
    else st.(applied := false, up := false, swept := true, problem := NoProblem,
             recycles := st.recycles + if w.changed then 1 else 0)
  }

  function Entered(st: State, want: bool, now: int): State {
    if st.since == Never || want != st.open then st.(open := want, since := At(now)) else st
  }

  // The line as the ConfigMap has it, trimmed, or "" when it is not there.
  function Have(text: string, sc: Redirect): string { Find(text, HostsTag(sc.name)).0 }

  // The drift check. drift is the text its write meets, which others may have
  // edited since its read.
  function Checked(st: State, text: string, sc: Redirect, now: int, api: Api, drift: string): (State, string) {
    if !api.read then (st.(up := false, problem := Checking), text)
    else if Have(text, sc) == HostsLine(sc) then (st.(up := true, problem := NoProblem), text)
    else
      var w := WriteLine(drift, sc, true, api);
      (Drifted(st, w, now), w.text)
  }

  /** One tick. */
  function Tick(st0: State, text: string, sc: Redirect, want: bool, now: int, api: Api, drift: string)
    : (State, string)
  {
    var st := Entered(st0, want, now);
    if want && !st.applied then
      var w := WriteLine(text, sc, true, api);
      (Opened(st, w, now), w.text)
    else if want then Checked(st, text, sc, now, api, drift)
    else if st.applied || !st.swept then
      var w := WriteLine(text, sc, false, api);
      (Closed(st, w, !st.applied), w.text)
    else (st.(up := false, problem := NoProblem), text)
  }

  // --- the controller ---------------------------------------------------------------------

  class ConfigMap {
    var text: string

    constructor (text: string)
      ensures this.text == text
    {
      this.text := text;
    }
  }

  // The working copy a tick mutates before putting it back.
  class ScheduleState {
    var open: bool
    var up: bool
    var since: Instant
    var problem: Problem
    var raises: nat
    var reRaises: nat
    var raisedAt: Instant
    var applied: bool
    var swept: bool
    var recycles: nat

    constructor (s: State)
      ensures Value() == s
    {
      open, up, since, problem := s.open, s.up, s.since, s.problem;
      raises, reRaises, raisedAt := s.raises, s.reRaises, s.raisedAt;
      applied, swept, recycles := s.applied, s.swept, s.recycles;
    }

    function Value(): State
      reads this
    {
      State(open, up, since, problem, raises, reRaises, raisedAt, applied, swept, recycles)
    }

    method Alarm(p: Problem)
      modifies this
      ensures Value() == old(Value()).(problem := p)
    {
      problem := p;
    }

    method RecyclePods()
      modifies this
      ensures Value() == old(Value()).(recycles := old(recycles) + 1)
    {
      recycles := recycles + 1;
    }
  }

  class Controller {
    const cm: ConfigMap
    var states: map<string, State>

    constructor (cm: ConfigMap)
      ensures this.cm == cm && states == map[]
    {
      this.cm := cm;
      states := map[];
    }

    function StateOf(name: string): State
      reads this
    {
      if name in states then states[name] else FRESH
    }

    /** The read-modify-write: put the text back only when editing changed it. */
    method WriteHostsLine(sc: Redirect, present: bool, api: Api) returns (changed: bool, ok: bool)
      modifies cm
      ensures var w := WriteLine(old(cm.text), sc, present, api);
        cm.text == w.text && changed == w.changed && ok == w.ok
    {
      if !api.get {
        return false, false;
      }
      var next;
      if present {
        next, changed := ApplyTaggedLine(cm.text, HostsLine(sc), HostsTag(sc.name));
      } else {
        next, changed := RemoveTaggedLine(cm.text, HostsTag(sc.name));
      }
      if !changed {
        return false, true;
      }
      if api.put != Rejected {
        cm.text := next;
      }
      if api.put != Stored {
        return false, false;
      }
      return true, true;
    }

    method OpenDNSWindow(sc: Redirect, st: ScheduleState, now: int, api: Api)
      modifies cm, st
      ensures var w := WriteLine(old(cm.text), sc, true, api);
        cm.text == w.text && st.Value() == Opened(old(st.Value()), w, now)
    {
      var changed, ok := WriteHostsLine(sc, true, api);
      if !ok {
        st.up, st.applied, st.swept := false, false, false;
        st.Alarm(Opening);
        return;
      }
      st.up, st.applied, st.swept, st.problem := true, true, true, NoProblem;
      st.raisedAt := At(now);
      st.raises := st.raises + 1;
      if changed {
        st.RecyclePods();
      }
    }

    /** The drift check. Others may edit the text between its read and its write. */
    method CheckDNSWindow(sc: Redirect, st: ScheduleState, now: int, api: Api, drift: string)
      modifies cm, st
      ensures (st.Value(), cm.text) == Checked(old(st.Value()), old(cm.text), sc, now, api, drift)
    {
      if !api.read {
        st.up := false;
        st.Alarm(Checking);
        return;
      }
      var have, found := FindTaggedLine(cm.text, HostsTag(sc.name));
      if have == HostsLine(sc) {
        st.up, st.problem := true, NoProblem;
        return;
      }
      cm.text := drift;
      ReApplyLine(sc, st, now, api);
    }

    method ReApplyLine(sc: Redirect, st: ScheduleState, now: int, api: Api)
      modifies cm, st
      ensures var w := WriteLine(old(cm.text), sc, true, api);
        cm.text == w.text && st.Value() == Drifted(old(st.Value()), w, now)
    {
      st.up, st.reRaises := false, st.reRaises + 1;
      var changed, ok := WriteHostsLine(sc, true, api);
      if !ok {
        st.applied, st.swept := false, false;
        st.Alarm(ReApplying);
        return;
      }
      st.applied, st.up, st.swept, st.problem := true, true, true, NoProblem;
      st.raisedAt := At(now);
    }

    method CloseDNSWindow(sc: Redirect, st: ScheduleState, sweep: bool, api: Api)
      modifies cm, st
      ensures var w := WriteLine(old(cm.text), sc, false, api);
        cm.text == w.text && st.Value() == Closed(old(st.Value()), w, sweep)
    {
      var changed, ok := WriteHostsLine(sc, false, api);
      if !ok {
        st.up := false;
        if sweep {
          st.Alarm(Sweeping);
          return;
        }
        st.Alarm(Closing);
        return;
      }
      st.applied, st.up, st.swept, st.problem := false, false, true, NoProblem;
      if changed {
        st.RecyclePods();
      }
    }

    method ReconcileDNSSchedule(sc: Redirect, want: bool, now: int, api: Api, drift: string)
      modifies this`states, cm
      ensures var was := if sc.name in old(states) then old(states)[sc.name] else FRESH;
        var (s, text) := Tick(was, old(cm.text), sc, want, now, api, drift);
        states == old(states)[sc.name := s] && cm.text == text
    {
      var st := new ScheduleState(StateOf(sc.name));
      ReconcileWindow(sc, st, want, now, api, drift);
      states := states[sc.name := st.Value()];
    }

    method ReconcileWindow(sc: Redirect, st: ScheduleState, want: bool, now: int, api: Api, drift: string)
      modifies cm, st
      ensures (st.Value(), cm.text) == Tick(old(st.Value()), old(cm.text), sc, want, now, api, drift)
    {
      if st.since == Never || want != st.open {
        st.open, st.since := want, At(now);
      }
      if want && !st.applied {
        OpenDNSWindow(sc, st, now, api);
      } else if want {
        CheckDNSWindow(sc, st, now, api, drift);
      } else if st.applied || !st.swept {
        CloseDNSWindow(sc, st, !st.applied, api);
      } else {
        st.up, st.problem := false, NoProblem;
      }
    }
  }
}
