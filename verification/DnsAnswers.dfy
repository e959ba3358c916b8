/** What one tick of a DNS redirect does and shows, told by what its calls met and by whether
    the text already was as wanted. */
module DnsAnswers {
  import opened Text
  import opened HostsText
  import opened HostsLaws
  import opened DnsController
  import opened DnsRuns

  // A write goes through if the text can be read and then stored - unless it is already as
  // wanted, when there is nothing to store.
  predicate GoesThrough(text: string, sc: Redirect, present: bool, api: Api) {
    api.get && (api.put == Stored || !Differs(text, sc, present))
  }

  lemma WriteAnswers(text: string, sc: Redirect, present: bool, api: Api)
    requires WellFormed(sc)
    ensures var w := WriteLine(text, sc, present, api);
      && (w.ok <==> GoesThrough(text, sc, present, api))
      && (w.changed <==> w.ok && Differs(text, sc, present))
      && (w.text != text <==> api.get && api.put != Rejected && Differs(text, sc, present))
  {
    if present {
      ApplyChanged(text, sc);
    } else {
      RemoveChanged(text, sc.name);
    }
  }

  // The window is open and the line has not been put in yet; it was and has drifted; the
  // window is shut and a line may still be there.
  predicate Opens(st: State, want: bool) { want && !st.applied }

  predicate Fixes(st: State, text: string, sc: Redirect, want: bool, api: Api) {
    want && st.applied && api.read && Differs(text, sc, true)
  }

  predicate Shuts(st: State, want: bool) { !want && (st.applied || !st.swept) }

  // What the tick cannot do.
  function Hindrance(st: State, text: string, sc: Redirect, want: bool, api: Api, drift: string): Problem {
    if Opens(st, want) && !GoesThrough(text, sc, true, api) then Opening
    else if want && st.applied && !api.read then Checking
    else if Fixes(st, text, sc, want, api) && !GoesThrough(drift, sc, true, api) then ReApplying
    else if Shuts(st, want) && !GoesThrough(text, sc, false, api) then if st.applied then Closing else Sweeping
    else NoProblem
  }

  lemma DriftShows(st: State, sc: Redirect, now: int, api: Api, drift: string)
    requires WellFormed(sc)
    ensures var st', through := Drifted(st, WriteLine(drift, sc, true, api), now), GoesThrough(drift, sc, true, api);
      st' == st.(up := through, problem := if through then NoProblem else ReApplying, reRaises := st.reRaises + 1,
                 raisedAt := if through then At(now) else st.raisedAt, applied := through, swept := through)
  {
    WriteAnswers(drift, sc, true, api);
  }

  lemma CheckShows(st: State, text: string, sc: Redirect, now: int, api: Api, drift: string)
    requires WellFormed(sc) && st.applied
    ensures var st' := Checked(st, text, sc, now, api, drift).0;
      var fixes := Fixes(st, text, sc, true, api);
      && st'.problem == Hindrance(st, text, sc, true, api, drift)
      && st' == st.(up := st'.up, problem := st'.problem, reRaises := st.reRaises + if fixes then 1 else 0,
                    raisedAt := if fixes && GoesThrough(drift, sc, true, api) then At(now) else st.raisedAt,
                    applied := !fixes || GoesThrough(drift, sc, true, api),
                    swept := if fixes then GoesThrough(drift, sc, true, api) else st.swept)
  {
    if api.read {
      if Have(text, sc) == HostsLine(sc) {
        HaveTells(text, sc);
      } else {
        DriftShows(st, sc, now, api, drift);
      }
    }
  }

  /** A tick shows exactly what it could not do, and its problem alone. It counts an opening
      when one goes through, a repair whenever it finds the line drifted, and dates both
      from when they went through; it believes in its line until a removal goes through or
      a write does not; and pods are recycled when moving the window changed the text. */
  lemma TickShows(st: State, text: string, sc: Redirect, want: bool, now: int, api: Api, drift: string)
    requires WellFormed(sc)
    ensures var st' := Tick(st, text, sc, want, now, api, drift).0;
      var opens, fixes := Opens(st, want), Fixes(st, text, sc, want, api);
      var hindered := Hindrance(st, text, sc, want, api, drift);
      var wrote := (opens || fixes) && hindered == NoProblem;
      && st'.problem == hindered
      && st'.since == (if st.since == Never || want != st.open then At(now) else st.since)
      && st'.raises == st.raises + (if opens && wrote then 1 else 0)
      && st'.reRaises == st.reRaises + (if fixes then 1 else 0)
      && st'.raisedAt == (if wrote then At(now) else st.raisedAt)
      && st'.applied == (if opens || fixes then wrote else st.applied && (want || hindered != NoProblem))
      && st'.swept == (if opens || fixes then wrote else st.swept || (Shuts(st, want) && hindered == NoProblem))
      && st'.recycles == st.recycles
           + (if (opens || Shuts(st, want)) && hindered == NoProblem && Differs(text, sc, want) then 1 else 0)
  {
    var entered := Entered(st, want, now);
    if want && st.applied {
      CheckShows(entered, text, sc, now, api, drift);
    } else {
      WriteAnswers(text, sc, want, api);
    }
  }
}
