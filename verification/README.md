# agentic-preview, modelled

agentic-preview raises previews of services in a Kubernetes cluster: it builds a
preview's Deployment and Service, asks the telepresence traffic-manager to divert
matching requests to it, and keeps one tunnel to every agent pod of every previewed
workload so that diverted requests can be answered. On a schedule it also opens and
closes windows during which a whole workload, or a DNS name, is redirected. Most of it is
small controllers that reconcile what is with what should be, over state that others
change at the same time and calls that may fail halfway. This project models those
controllers and proves what they keep over whole runs.

What each part says, and where to find it:

- **The tunnel pool.** `Agents` has the pods, the tunnels and one locked decision;
  `TunnelPool` is the pool as a class, one call at a time; `PassLaws` says what a pass
  achieves, and `Publishing` what it tells the registry. `PoolProtocol` is the same pool as
  a step relation - any number of passes, snapshots, session ends, dial loops ending and
  cancellations, interleaved wherever the lock is free. `PoolSafety` proves what every run
  of it keeps, `PoolSlots` where each tunnel is and who holds a dial slot, `PoolExact`
  exactly when it goes wrong, `SessionEnds` what the end of a
  session takes, `PoolRefinement` that a call of the class is a run of the protocol, and
  `PoolWitnesses` gives runs from an empty pool in which things do go wrong.
- **The DNS redirects.** `HostsText` is the line editor, `HostsRefinement` and `HostsLaws`
  its meaning: text as a map from schedule names to lines. `HostsPlaces` says where in the
  text a line goes. `DnsController` is the state machine over it, with API calls that work,
  fail, or fail after taking effect, `DnsAnswers` what one tick does and shows, and
  `DnsRuns` its runs with outsiders editing the text and pods restarting.
- **The clock.** `Windows` is the look-back, `NextChange` the search for the next flip,
  `Clock` the reading and compiling of a declared window, `ClockLaws` which clock times and
  day words there are.
- **Expiry.** `Cluster` is the objects and the deletion, `Confirm` the poll, `Expiry` the
  teardown of a work id, `OrphanSweep` what a sweep finds and in what order, `Sweeper` the
  sweep, `SweepLaws` runs of sweeps, `SweepEffects` what they do to the cluster,
  `SweepBacklog` the two together, and `SweepWitnesses` two runs that surprise.
- **The registry.** `Registry` is the table and its class, `Handlers` the API handlers and
  the intercept schedules' tick, `HandlerInvariant` and `PostInvariant` what each operation
  keeps, and `RegistryRuns` what every run of them does. `Answers` says by the fields of
  requests and entries what a POST is answered and what a tick does, `PostLaws` what a POST
  promises. `RegistryHistory` and `EntryHistory` are what an entry - its age, its target,
  its deadline, its status, its tunnels - and a schedule's state say of the run behind them.
  `Deletions` is what a DELETE reaches, `ModeRaces` checks and adds as separate steps, and `ExpiryRaces` what a
  POST in the middle of an expiry risks.
- **Names and the state file.** `Names` is the making of a label, `SessionFile` the file of
  sessions, `SessionRuns` the same over runs of saves whose writes land when they land.
- `Text` holds the string operations the others share.

Where the source changes something in place - the pool's maps, a schedule's state, the
ConfigMap, the registry's entries, the sweeper's memory, the array of weekdays - the model
is a class or an array with methods, each proved equal to a function of the old state; the
laws are about those functions.

Where the code does something else than its comments say, or less than one would hope, the
model follows the code, and the exact condition is proved:

- A pod that changes its address is queued twice in one pass, because claims are taken only
  after both loops (agents.go:249, 264 and 268). `PassLaws.DoubleDial` says when a pass then
  dials a pod that has a tunnel, `PoolExact.DecisionSafeWhen` exactly which decisions can
  lead to a pod being dialled twice, `PoolWitnesses.RedialledPort` is a run in which one is,
  and `PoolSafety.SingleDialByIdentity` that it takes a pod key that changes identity.
- A tunnel runs under the context of the watcher whose pass dialled it, so the end of a
  session takes other namespaces' tunnels with it, although session.go:306-308 says that it
  does not. `PassLaws.SessionEndSpares` says when it does not, `SessionEnds.SessionEndTakes`
  exactly which tunnels go, and `PoolWitnesses.TakenDown` is a run in which one does.
- A cancelled pass can leave claims behind, whose pods are never dialled again
  (`PoolSafety.AbandonedForever`). In a run of harmless decisions that happens if and only if
  some pass was cancelled with work left (`PoolExact.LeaksWhen`); in any run, if and only if
  some pass was cancelled with a pod in its hands that was still claimed and in no other
  pass's hands (`PoolExact.LeaksExactly`). Without a cancellation no run leaves one
  (`PoolExact.NoCancelNoLeak`). `PoolWitnesses.LeftBehind` is a run that does, and
  `PoolWitnesses.CancelledHarmlessly` one whose cancellation does not.
- A teardown takes every object of the orphan's work id and workload in any allowed
  namespace, tracked or not: `SweepEffects.SweepTakes` is the condition, sweep by sweep,
  `SweepEffects.TrackedSpared` a hypothesis that is enough for tracked previews, and
  `SweepWitnesses.TrackedTaken` a sweep that takes one. A DELETE of one service reaches as
  far (`Deletions.RemovalReaches`).
- An orphan that was torn down keeps its sighting for one more sweep, although
  expiry.go:320-322 says that a deleted one loses it (`SweepLaws.TornStaysSighted`,
  `SweepWitnesses.TornTwiceRunning`).
- The bounded look-back misses an opening on a zone's 23-hour day for some windows and not
  for others; `Windows.ExactWhen` says for which.
- The work ids an expiry removes were found due before their polls. One that a POST has
  extended by then is removed all the same: `ExpiryRaces.FreshEntryLost` says when,
  `ExpiryRaces.LostAtWork` shows it happening.
- A service pointed somewhere new, and a schedule's intercept raised again, start their age
  afresh, the old entry being removed first (api.go:324), although preview.go:489-491 speaks
  of the first appearance: `RegistryHistory.AgeIsLastRaise`.
- The mode check and the add are two steps, and a workload can come to carry both modes:
  `ModeRaces.ModesHoldWhen` says in which runs, `HandlerInvariant.ChecksBeforeAdds` for two
  callers.
- So are composing the state file and writing it, and a write can fail halfway:
  `SessionRuns.FileRight` says after which runs the file is right.

## Model

| member | source | states |
|---|---|---|
| Agents.PodKeyInjective | agents.go:73-75 | a pod key tells its pod and its namespace, since a namespace has no dot |
| Agents.ReplacedOnly | agents.go:203-214 | a snapshot of one namespace becomes all that is known of it and changes nothing known of any other |
| Agents.LatestIsLastSaid | agents.go:203-214 | over any interleaving of snapshots and session ends, what is known of a namespace is what its own last event left |
| TunnelPool.AgentPool.ReplaceNamespace | agents.go:203-214 | the entries of the namespace go, the reported pods come in, later reports of a key winning |
| TunnelPool.AgentPool.CloseNamespace | agents.go:453-472 | exactly the namespace's tunnels and pods go, and exactly its tunnels are handed back to be closed |
| TunnelPool.AgentPool.Decide | agents.go:219-271 | what is kept, dropped, rebuilt, newly dialled and claimed, whatever order the maps are walked in |
| TunnelPool.AgentPool.Establish | agents.go:323-404 | a tunnel is installed only for a usable, dialled pod without one; the claim is released however it ends |
| TunnelPool.AgentPool.Reconcile | agents.go:219-286 | a pass is the decision followed by its queue, up to the point where the context ends |
| PassLaws.RunQueueConns | agents.go:276-283 | however the dials end, tunnels that were there stay the same objects, new ones are this pass's, and every dial that could work left one |
| PassLaws.RunQueueClaims | agents.go:276-283 | exactly the claims of the attempted keys are released |
| PassLaws.PassCompletes | agents.go:219-286 | from no claims, a full pass whose dials work ends with tunnels for exactly the reported pods of wanted workloads, at their reported identities, correct ones untouched, no claim left |
| PassLaws.PassOrderFree | agents.go:234-267 | the order in which the maps are walked does not change the outcome, up to which object a new tunnel is |
| PassLaws.SecondPassIdle | agents.go:219-286 | a second pass over the same picture has nothing to drop and nothing to dial |
| PassLaws.PassLeavesNoShortfall | agents.go:298-315 | afterwards each wanted workload has a tunnel for each pod reported for it |
| PassLaws.DoubleDial | agents.go:244-268 | a full pass dials a pod that has a tunnel by then if and only if a wanted, unclaimed pod changed its address |
| PassLaws.SessionEndSpares | agents.go:276-283 | after a full pass, the end of the watcher's session takes only its own namespace's tunnels if and only if every pod the pass had to dial was of that namespace - given that it had dialled none of the others it kept |
| PassLaws.DialledTunnelsDieWithTheirWatcher | agents.go:340-341 | whatever a pass dials, in any namespace, goes when that watcher's session ends |
| PoolSafety.DecideExact | agents.go:219-271 | a decision keeps the protocol's invariant if and only if each changed address it meets is neither queued again as missing nor in another pass's hands |
| PoolSafety.StepInv | agents.go:219-404 | every step of the protocol keeps the invariant, a decision as long as it meets only harmless changes |
| PoolSafety.SingleDial | agents.go:388-404 | in every such run one pass at most dials a pod, no dial is for a pod with a tunnel, no tunnel loses its dial slot |
| PoolSafety.SteadyByIdentity | agents.go:58-65 | if no pod key ever changes identity, every decision of every run is harmless |
| PoolSafety.SingleDialByIdentity | agents.go:219-404 | so then, in every run, single dialling holds and the branch that finds an entry already there is never taken |
| PoolExact.DecisionSafeWhen | agents.go:219-271 | the same condition is exactly when no run from the decision, all further decisions being harmless, has two passes dialling one pod or one dialling a pod with a tunnel |
| PoolExact.UnsteadyBreaks | agents.go:244-268 | from any other decision, steps that lead to two passes dialling one pod |
| PoolExact.NoCancelNoLeak | agents.go:268-283 | in any run without a cancellation every claim is held by a pass that will release it |
| PoolExact.LeaksWhen | agents.go:277-279 | in a run of harmless decisions a claim is left behind if and only if some pass was cancelled with work left |
| PoolExact.LeaksExactly | agents.go:277-279 | in every run a claim is left behind if and only if some pass was cancelled with a pod in its hands that was still claimed and in no other pass's hands |
| PoolSafety.CancelAbandons | agents.go:277-279 | a cancelled pass leaves a claim without a holder for every pod it had left |
| PoolSafety.AbandonedForever | agents.go:259-263 | no pass of any watcher ever dials a pod with such a claim again |
| PoolSlots.BooksKept | agents.go:219-472 | in every run each tunnel is in one place - in the pool under one key, on its way out, or with the one pass that dials it -, each dial slot is held by a tunnel for that pod in such a place, and every tunnel leads to an address of four or sixteen bytes and a port |
| PoolSlots.SlotStays | agents.go:388-404 | a slot is taken away only with its holder, by the agent, or by a new dial of the pod |
| PoolSlots.QuietSlots | agents.go:388-404 | when no pass dials and nothing is on its way out, each slot is a pool tunnel's own |
| PoolSlots.KnownIsLastSaid | agents.go:203-214 | at the end of any run what is known of a namespace is its last snapshot, or nothing if its session has ended since |
| PoolRefinement.PassIsARun | agents.go:219-286 | an uninterrupted call, run to its end or cancelled, is a run of the protocol with the same outcome |
| SessionEnds.EndRun | session.go:300-309 | the end of a session is a run of the protocol that leaves the tunnels neither of that namespace nor dialled by its watcher |
| SessionEnds.SessionEndTakes | session.go:300-309 | at the end of any run it takes exactly its namespace's tunnels and those a pass of its watcher installed and that have been up since |
| PoolWitnesses.RedialledPort | agents.go:244-268 | a run from an empty pool in which a pod that came back on another port is dialled while it has a tunnel |
| PoolWitnesses.LeftBehind | agents.go:277-279 | a run from an empty pool that leaves a claim behind |
| PoolWitnesses.CancelledHarmlessly | agents.go:277-279 | a run from an empty pool with a pass cancelled with work left, and no claim left behind |
| PoolWitnesses.TakenDown | session.go:306-308 | a run from an empty pool after which the end of one namespace's session takes another's tunnel |
| Publishing.Publish | agents.go:298-315 | every entry of the registry is told its workload's tunnels, by pod name in order, and its number of reported pods, and nothing else |
| Publishing.KeysMatch | agents.go:68-70 | the pool's key for a pod is the registry's for an entry if and only if the pod is of the entry's workload and namespace |
| Publishing.PassServes | agents.go:219-286 | a full pass over what the registry wants, whose dials work, leaves tunnels to exactly the reported pods that share workload and namespace with some entry, each at its reported name, address and port |
| Publishing.PassTells | agents.go:298-315 | and its telling tells each entry exactly those pods of its own workload and namespace, by name, and their number |
| Publishing.PassThenCheck | schedule_controller.go:316-347 | after a full pass and its telling, a schedule whose intercept the manager calls active is up in its check if and only if the intercept is in its grace or any pod of its workload and namespace is reported |
| HostsText.FindTaggedLine | dns.go:58-66 | the first line that ends in the tag, trimmed, or nothing |
| HostsText.HostsBlockAt | dns.go:125-136 | the first line that opens a hosts block |
| HostsText.BlockIndent | dns.go:141-157 | the indentation of the block's first line with text in it, or one step more than the opener's |
| HostsText.ApplyTaggedLine | dns.go:77-102 | the first tagged line replaced, or one put in after the opener, or a block appended; and whether anything changed |
| HostsText.RemoveTaggedLine | dns.go:107-122 | the text without its first tagged line; and whether there was one |
| HostsText.TagUnique | dns.go:47-52 | a line carries the tag of at most one schedule, names having no `#` |
| HostsText.LineReadsBack | dns.go:50-52 | the line a schedule writes is a hosts entry: its first field is the address, its second the host name |
| HostsText.OpenerWhen | dns.go:125-136 | at any indentation and with any arguments, a line opens a hosts block if and only if its first word is "hosts" and it ends in a brace apart from it |
| HostsText.NameShape | preview.go:16 | a schedule's name is a letter or digit and up to sixty-two letters, digits, dots, underscores and dashes |
| HostsText.WellFormedWhen | schedule.go:571-596 | the redirects treated are exactly those with a valid name and a host name and an address made of the characters such are written with |
| HostsRefinement.ApplyHeld | dns.go:77-102 | an apply makes the line the first of its schedule's and leaves every other schedule's lines alone |
| HostsRefinement.RemoveHeld | dns.go:107-122 | a remove takes the first of that schedule's lines and nobody else's |
| HostsRefinement.FindHeld | dns.go:58-66 | finding a tag gives the first line its schedule holds, or nothing |
| HostsLaws.ApplyChanged | dns.go:77-102 | an apply reports a change exactly when the text differs, which is exactly when the first line is not the wanted one |
| HostsLaws.RemoveChanged | dns.go:107-122 | a remove reports a change exactly when the text differs, which is exactly when there was a line |
| HostsLaws.ApplyIdempotent | dns.go:77-102 | applying again changes nothing and says so |
| HostsLaws.RemoveForgets | dns.go:107-122 | after a remove the tag is gone if and only if it stood on at most one line |
| HostsLaws.ApplyForeign | dns.go:77-102 | with a hosts block, all lines without a schedule's tag keep their bytes and order under an apply |
| HostsLaws.RemoveForeign | dns.go:107-122 | and under a remove |
| HostsLaws.RoundTrip | dns.go:77-122 | applying and removing a line that was absent gives back the exact bytes if and only if there was a hosts block |
| HostsLaws.RunRefines | dns.go:47-122 | any sequence of opens and closes by any schedules refines a map from names to lines |
| HostsLaws.FindAfterRun | dns.go:47-122 | after it, finding a tag gives that schedule's last write or nothing |
| HostsLaws.ForeignAfterRun | dns.go:47-157 | after it, with a hosts block, all other lines are as they were |
| HostsPlaces.ReplacesInPlace | dns.go:77-86 | a schedule that has a line keeps its place and indentation, and every other line stays where it is |
| HostsPlaces.InsertsAfterOpener | dns.go:88-157 | one that has none gets it right below the first opener, indented as the block's next entry or four blanks in, every other line staying as it is |
| HostsPlaces.AppendsBlock | dns.go:93-102 | where there is no hosts block one is added, line by line, after what was there less its last line ends |
| DnsController.Controller.WriteHostsLine | dns.go:413-443 | the text after the read-modify-write, and what it reports, for every way its calls can end |
| DnsAnswers.WriteAnswers | dns.go:413-443 | a write goes through if and only if the text can be read and either needs no change or is stored; it reports a change exactly when the text had to change |
| DnsController.Controller.OpenDNSWindow | dns.go:214-233 | the state and text an opening leaves, whether its write works or not |
| DnsController.Controller.CheckDNSWindow | dns.go:245-277 | the state and text the drift check leaves, others editing between its read and its write |
| DnsController.Controller.CloseDNSWindow | dns.go:287-306 | the state and text a closing or a sweep leaves |
| DnsController.Controller.ReconcileDNSSchedule | dns.go:177-211 | one tick stores exactly the ticked state under the schedule's name and leaves all others' |
| DnsAnswers.TickShows | dns.go:179-305 | what one tick shows - its problem, what it counts, dates and believes, and whether it recycles pods - told by what its calls met and by whether the text was as wanted |
| DnsRuns.TickOther | dns.go:177-306 | one schedule's tick leaves each other schedule's lines as the text had them when it was read or written |
| DnsRuns.RunInv | dns.go:177-306 | in every run - any ticks, failures, restarts, tolerable edits - a schedule that believes itself closed and swept has no line in the text |
| DnsRuns.NeverForgotten | dns.go:287-306 | after any run a shut tick leaves the line gone, or a problem showing and a state that tries again |
| DnsRuns.RestartStartsOver | dns.go:163-178 | after a restart, whatever the text has become, a schedule's first tick whose calls work leaves exactly the line the window wants, or none |
| DnsRuns.StatusTells | dns.go:200-306 | after every tick: open as wanted, up if and only if open without a problem, and up means the exact line is in the text, whose first two fields are the address and the host name |
| DnsRuns.RecyclesWhen | dns.go:214-306 | without failures, pods are recycled by exactly the ticks that move the window and had to change the text |
| DnsRuns.RecyclesAtMost | dns.go:330-373 | so at most once per change of the wanted state, however often the line drifts in between |
| DnsRuns.UnheardWriteIsAdopted | dns.go:214-233 | a write that worked and was reported failed is adopted by the next tick, without a recycle |
| Windows.ActiveNow | schedule.go:318-334 | the loops over windows and days find an opening of the look-back's days that covers the instant, if there is one |
| Windows.LookBackExact | schedule.go:318-334 | on days of at least 24 hours: active if and only if any opening, however far back, covers the instant |
| Windows.ActiveExact | schedule.go:318-334 | so a schedule is active if and only if an opening of any of its windows covers the instant |
| Windows.LookBackExactShort | schedule.go:318-334 | the same with one 23-hour day among them, unless start + (length mod 24h) > 47h and some opening is followed by none on the days it spans |
| Windows.LookBackMisses | schedule.go:318-334 | every such window is missed - open and reported shut - at some instant of some zone with a single 23-hour day |
| Windows.ExactWhen | schedule.go:318-334 | so the look-back is exact across one 23-hour day if and only if the window is not such a one |
| NextChange.ActiveMinute | schedule.go:340-350 | on whole minutes, activity is constant within each minute |
| NextChange.ActiveWeek | schedule.go:318-334 | in a fixed-offset zone activity repeats every week |
| NextChange.NextFlip | schedule.go:340-350 | the first instant at any resolution at which activity flips, or none because it never does |
| Clock.ParseClock | schedule.go:792-814 | reads the sum of two or three parts in range, at most the whole day, in whole seconds; all else is refused |
| ClockLaws.ClockExact | schedule.go:790-814 | a text is read as a time if and only if it is an hour up to 24, a minute and perhaps a second up to 59, written with or without signs and zeros in front, with colons between and nothing past 24:00; and as their time since midnight |
| Clock.ClockRoundTrip | schedule.go:377-379 | every whole minute up to 24:00 is read back from the way it is written |
| Clock.SetDays | schedule.go:767-788 | marks, in place, exactly the days a word names, and fails exactly when it names none |
| ClockLaws.DaysExact | schedule.go:757-788 | a word names a day if and only if it is called so, in full or short, or is a word for Monday to Friday, the two others, or every day |
| Clock.CompileWindow | schedule.go:703-755 | succeeds exactly on usable declarations, with a valid window on the named days whose end is the declared time of the same day or the next |
| ClockLaws.CompilesWhen | schedule.go:703-755 | a declaration is usable if and only if all its words name days, it starts at a clock time before midnight, and it has either an end at a clock time or a positive length |
| Cluster.Cluster.DropWorkload | workload.go:563-607 | which objects go, which are reported removed and what is reported as a problem, for every answer of every call |
| Cluster.DropsOnlyOurs | workload.go:117-123 | nothing this tool did not create is deleted, even by a list that ignored its selector |
| Cluster.DropExact | workload.go:105-115 | with honest lists and working deletions exactly the selected objects of all allowed namespaces go |
| Cluster.DropByLabels | workload.go:105-115 | told by the labels: those of the work id, of all its workloads or of the one named, and nothing else |
| Cluster.TroubleFree | workload.go:563-607 | a drop reports no problem if and only if every list was answered, named only our objects, and every deletion worked |
| Confirm.ConfirmGone | expiry.go:152-200 | after how many passes the poll ends, and that it reports exactly what the last pass listed or could not list |
| Confirm.ConfirmedMeans | expiry.go:152-200 | gone if and only if some pass that begins within the timeout is clean, each pass followed by half a second doubling up to sixteen; the last pass is the first clean one or the last to begin in time; at most 6 + T/16s passes |
| Confirm.CleanSaysNothing | expiry.go:167-189 | a pass is clean if and only if nothing remains by it and no namespace could not be listed |
| Confirm.RemainsAre | expiry.go:167-189 | against honest lists what remains is exactly what is there and matches, and nothing is in doubt |
| Confirm.CleanMeans | expiry.go:167-189 | an honest clean pass means there is nothing left in those namespaces |
| Expiry.Reaper.ExpireWork | expiry.go:105-139 | the registry and the cluster after one expiry, the confirmation being over exactly the work id's namespaces |
| Expiry.Reaper.ReapExpired | expiry.go:66-89 | one tick removes exactly the due work ids whose own poll saw everything gone, puts the others off, drops the objects of each, and touches nothing else |
| Expiry.RouteAfterConfirmation | expiry.go:105-139 | the route goes if and only if some pass that begins in time is clean over all those namespaces; otherwise only the id's deadlines move, together, scheduled ones never |
| Expiry.SeenGoneMeans | expiry.go:105-139 | the poll that decides is over exactly the namespaces of the id's previews, both kinds, and its own objects |
| Expiry.VerdictOrderFree | expiry.go:152-200 | the verdict and the number of passes do not depend on the order of the namespaces |
| OrphanSweep.Note | expiry.go:357-368 | every nameable preview is found, with the age of its oldest object |
| OrphanSweep.KeysInOrder | expiry.go:334-352 | all keys found, each once, oldest first and ties by what is shown of them |
| OrphanSweep.LessIs | expiry.go:334-352 | ties are broken as a dictionary would: by the lesser character where the two part, or by which ends first |
| OrphanSweep.RenderInjective | expiry.go:212-214 | keys as a cluster can have them are told apart by what is shown of them |
| OrphanSweep.OneOrder | expiry.go:334-352 | so two walks of the map give the same order |
| Sweeper.Sweeper.SweepOrphans | expiry.go:243-329 | a sweep tears down the first five ready keys in that order, and remembers exactly its own orphans and their hold-offs |
| Sweeper.WalkedIs | expiry.go:278-328 | the key-by-key walk with its running budget is that closed form |
| SweepLaws.TwoSightings | expiry.go:278-294 | a key is torn down only if it was listed, untracked and over-age on this sweep and the one before |
| SweepLaws.NotRetriedEarly | expiry.go:295-311 | after an unconfirmed teardown there is none before the recheck interval is over, while every sweep sights the key |
| SweepLaws.UnsightedStartsOver | expiry.go:320-328 | a sweep that does not sight a key drops its hold-off and its sighting |
| SweepLaws.TornStaysSighted | expiry.go:286-328 | a torn key keeps its sighting and is ready at once if the next sweep finds it orphaned again |
| SweepLaws.OldestFirst | expiry.go:272-301 | at most five a sweep; a ready key is passed over only for five at least as old |
| SweepLaws.BacklogClears | expiry.go:264-301 | n orphans, no new ones and confirmed teardowns: none is left after 1 + ceil(n/5) sweeps |
| SweepBacklog.BacklogGone | expiry.go:243-329 | on the cluster: honest lists, working deletions, a fixed registry, no new object and none coming of age - no overdue untracked object is left after 1 + ceil(n/5) sweeps |
| SweepBacklog.OrphansAre | expiry.go:243-284 | against honest lists a sweep's orphans are exactly the overdue previews nobody tracks |
| SweepEffects.TrackedSpared | expiry.go:278-316 | a sweep spares tracked previews' objects where a work id and workload live in one namespace |
| SweepEffects.TearDownReaches | workload.go:563-607 | one teardown takes an object if and only if it is ours, in an allowed namespace, with the orphan's work id and workload |
| SweepEffects.SweepTakes | expiry.go:278-316 | a whole sweep takes an object if and only if it is ours, in an allowed namespace, and shares both with some key torn down |
| SweepWitnesses.TrackedTaken | expiry.go:304 | a sweep that tears down one orphan and takes a tracked preview's Deployment in another namespace |
| SweepWitnesses.TornTwiceRunning | expiry.go:320-328 | a key torn down and confirmed gone on one sweep and torn down again on the next |
| SweepEffects.FindsExactly | expiry.go:243-270 | against honest lists a sweep sights exactly the objects of ours that name their preview, in the allowed namespaces, each at its age |
| SweepEffects.TearDownClears | expiry.go:304-316 | a working teardown confirms on the first honest pass and its key is not found again |
| Registry.Registry.Add | preview.go:480-499 | refused exactly when another service has the name; otherwise the object stands under its key with the age of its first appearance |
| Registry.Registry.ConflictingMode | preview.go:515-525 | finds an entry of another key on the same workload in the other mode, if and only if there is one |
| Registry.Registry.RemoveService | preview.go:535-541 | exactly that entry goes and is handed back |
| Registry.Registry.RemoveWork | preview.go:544-556 | exactly the work id's entries go and are handed back |
| Registry.Registry.Touch | preview.go:649-661 | the work id's deadlines move, except those of scheduled intercepts |
| Registry.Registry.Namespaces | preview.go:667-680 | the namespaces of a work id's previews, each once |
| Registry.Registry.Expired | preview.go:683-697 | exactly the work ids with a preview past its deadline, each once |
| Registry.Registry.SetStatus | preview.go:699-707 | every entry of that intercept name has the disposition and the message, and nothing else changed |
| Registry.Registry.SetAgentPods | preview.go:712-721 | every entry of that workload has the pods and the count, and nothing else changed |
| Handlers.Server.HandleAdd | api.go:216-348 | the registry and the reply for every outcome: refusals, retry, roll forward, replacement, failed raise |
| Answers.PostAnswers | api.go:216-348 | which answer a POST gets, if and only if which of its fields, of the live previews' and of the world's are how |
| PostLaws.Taken | api.go:280-341 | after a POST that is taken the entry under its key has its service, port, port name and image, and every other entry its own |
| PostLaws.AgeCarries | preview.go:486-494 | a preview put in again keeps the age it had; a new one has its own, or starts now |
| Handlers.Server.HandleRemoveWork | api.go:397-417 | a reserved work id is refused; any other loses its entries and its objects, and "nothing live" is the answer exactly when there was neither |
| Handlers.Server.HandleRemoveService | api.go:422-452 | a reserved work id is refused; otherwise that entry goes, and the objects of its work id and workload in every allowed namespace |
| PostLaws.RemovalTakes | api.go:397-452 | a DELETE takes exactly the entry, or the work id's entries, asked for - of a reserved work id none - and leaves all others as they were |
| Deletions.PairOnce | preview.go:480-499 | in every run a work id and a workload are registered in one namespace at most, names being made of the two |
| Deletions.RemovalReaches | api.go:429-430 | a DELETE of one service takes another live preview's objects if and only if that has the same work id and workload in an allowed namespace, and then the service asked for is not registered |
| Deletions.ReportedAre | workload.go:563-607 | a DELETE reports as deleted exactly the objects of its labels in the allowed namespaces whose deletion was heard to have worked |
| Handlers.Server.OpenWindow | schedule_controller.go:218-266 | the registry and state an opening leaves, for each refusal and failure |
| Handlers.Server.CheckWindow | schedule_controller.go:277-360 | the registry and state the health check leaves, for each answer of the manager |
| Handlers.Server.CloseWindow | schedule_controller.go:365-382 | the entry is out whether or not the remove worked, which the state says |
| Handlers.Server.ReconcileSchedule | schedule_controller.go:178-215 | one tick changes the registry as specified and only its own schedule's state |
| Answers.TickDoes | schedule_controller.go:178-382 | a tick raises the intercept if and only if its window is open, the intercept is not registered or is lost, and nothing stands in the way; what it counts, dates, notes and shows otherwise |
| HandlerInvariant.ModeCheckExact | preview.go:501-525 | an add keeps each workload in one mode if and only if the check finds no conflict |
| HandlerInvariant.NameCheckExact | preview.go:480-499 | an add keeps intercept names unique if and only if the name is not taken |
| HandlerInvariant.ChecksBeforeAdds | api.go:243-332 | two callers that both check before either adds keep one mode if and only if they do not conflict with each other |
| ModeRaces.ModesHoldWhen | api.go:243-332 | in any run of checks and adds by any callers no workload ever carries both modes if and only if nobody adds after another has put in, since its check, an entry that conflicts with its own |
| ModeRaces.RaceAtWork | api.go:243-332 | a run of two callers after which a workload carries both modes |
| RegistryRuns.StepInv | api.go:216-452 | every handler, expiry and tick keeps keys, unique names, one mode, reservation and deadlines in order |
| RegistryRuns.TickTells | schedule_controller.go:178-393 | after every tick the state is open as wanted, open without a problem means up, up means registered, shut means unregistered; and what is registered is the declared intercept, raised when the state says |
| RegistryRuns.OnlyItsOwnTicks | api.go:231-250 | nothing but a schedule's own ticks registers, evicts or expires its intercept |
| RegistryRuns.RunGood | preview.go:480-525 | all of this in every run |
| PostLaws.RetryDisturbsNothing | api.go:280-295 | the same POST again is answered as unchanged and only extends the work id's deadline |
| PostLaws.OthersUntouched | api.go:213-216 | whatever a POST is answered, every other work id's entries stay exactly as they are |
| PostLaws.FailedPost | api.go:231-341 | a refusal changes nothing; a failed roll leaves the old entry, and any other failure no entry for the service |
| RegistryHistory.AgeIsLastRaise | preview.go:486-494 | in every run a preview's age counts from the last time its intercept was raised, whatever else happened to it |
| RegistryHistory.GraceFromLastRaise | schedule_controller.go:316-347 | so is the instant a schedule's grace counts from, as long as its intercept is registered |
| RegistryHistory.RouteIsLastTaken | api.go:280-341 | in every run a registered preview has the target and image of the last POST for it that was taken, and a schedule's intercept is the one it declares |
| EntryHistory.DeadlineIsLastSet | preview.go:649-661 | in every run a preview expires a lifetime after the last POST of its work id that was taken, or at the recheck of a later unconfirmed expiry |
| EntryHistory.ShowsLastSaid | preview.go:699-721 | in every run a preview shows the manager's last word on its intercept, and the tunnels its workload was last told of since it was raised |
| EntryHistory.RegisteredWhen | preview.go:480-556 | in every run a preview is registered if and only if it was raised and since then not deleted, confirmed gone, displaced by a POST to another target that failed, or - a schedule's - shut, or lost and not raised again |
| EntryHistory.SinceIsLastMove | schedule_controller.go:186-190 | in every run a schedule's state dates from the tick that last found its window moved |
| RegistryHistory.UpHasGrounds | schedule_controller.go:178-360 | in every run a schedule shows itself up if and only if some tick raised it or had it vouched for, past ninety seconds from its raise with every tunnel, and each tick since asked and got no answer |
| ExpiryRaces.FreshEntryLost | expiry.go:83-129 | what a confirmed expiry removes had time left if and only if a POST of the work id was taken between the tick that found it due and the end of its poll |
| ExpiryRaces.LostAtWork | expiry.go:83-129 | a run in which that happens |
| Names.Sanitise | preview.go:444-461 | collapses each run of other characters to one dash, trims, cuts at 63 and trims again; and terminates |
| Names.LabelShape | preview.go:15 | the result is empty or a label in the sense of section 2.1 of RFC 1123, without two dashes running |
| Names.LabelSpells | preview.go:444-461 | the result is the runs of letters and digits of the lower-cased input, in order, with one dash between, or what sixty-three characters hold of that without a dash at the cut |
| Names.LabelEmptyWhen | preview.go:444-461 | and empty exactly when the input has no letter or digit |
| Names.LabelFixed | preview.go:444-461 | a name is left alone exactly when it is empty or such a label |
| Names.LabelIdempotent | preview.go:444-461 | so making a name of a name changes nothing |
| SessionFile.Sessions.SaveSession | session.go:738-764 | the map has the new id, and the file one line per allowed namespace with a session, or what a write that fails leaves of it |
| SessionFile.Sessions.SweepPreviousSession | session.go:776-820 | every recorded session is departed, in order, and forgotten, unless the file or the manager is out of reach |
| SessionFile.RecordedSessions | session.go:831-844 | one session per line with text in it, from its first two fields or its only one |
| SessionFile.LineReads | session.go:750-757 | a line of the file is the namespace and the id, in this order, and a line end |
| SessionFile.RunReadsBack | session.go:738-764 | after any run of reconnects the file reads back as the last session of each allowed namespace that has one, in configured order |
| SessionFile.StaleWrite | session.go:743-762 | when the earlier of two saves lands last, the file is right if and only if the later one was for another namespace or said nothing new |
| SessionRuns.CutReadsBack | session.go:758-763 | a write cut short reads back as the sessions there are if and only if all it lost is the last newline |
| SessionRuns.FileRight | session.go:738-764 | after any run of saves whose writes land late, fail or are cut short, the file is right if and only if the last write to touch it left all but the last newline and its save is still the last word on every allowed namespace |
| SessionFile.LegacyReads | session.go:825-844 | a file of bare ids is one session a line |

## Left out

- NextChange.NextFlip: zones with a fixed offset only, where the minute search is exact; real time-zone data and calendar rules are not modelled.
- Windows.LookBackExact: days are a row of midnights; of days shorter than 24 hours one 23-hour day in the span is treated; which wall-clock time an opening has on a day that is not 24 hours long is not stated, since the code opens at midnight plus elapsed time.
- PoolSafety.SingleDialByIdentity: a pod's workload is taken to be a function of its pod key, because the identity the code compares does not cover the workload.
- Confirm.ConfirmGone: when the timeout strikes at the very instant a wait ends, the code may go either way; the model takes another pass. The sorting of the reported names is not modelled.
- Expiry.Reaper.ExpireWork: one call, with nothing in between; RegistryRuns has its beginning and its end as two steps. The process without a Kubernetes client, where the poll and the drop do nothing, is not modelled.
- Cluster.Cluster.DropWorkload: objects others create or delete while one drop is under way are not modelled; what the lists say is arbitrary.
- Handlers.Server.HandleAdd: the building of the preview's objects is one outcome, and the entry is as it stands after it; between the mode check and the add nothing else happens in one step - HandlerInvariant.ChecksBeforeAdds says what can go wrong when it does.
- Handlers.Server.HandleRemoveWork: the manager's removal of the intercepts does not touch the registry and is not modelled; problems are the drop's own.
- Handlers.Server.ReconcileSchedule: the next-change field, the throttling of alarms and the wording of problems are not modelled; a problem is its kind.
- DnsController.Controller.ReconcileDNSSchedule: recycling pods is a counter; which pods, and failures to delete them, are not modelled.
- TunnelPool.AgentPool.Reconcile: the publishing that ends a pass is Publishing.Publish; the wake-up channel of the watchers is not modelled.
- Names.Sanitise: input is a sequence of characters; invalid UTF-8 is not modelled.
- SessionRuns.FileRight: no session id is the beginning of another, as ids of one length are not; with such ids a line cut short could be right by chance.
- SessionFile.Sessions.SweepPreviousSession: what the manager answers to each departure is only logged, and not modelled; nor are the permissions and the directory of the file.
- The manual override of a schedule: the wanted state is an arbitrary boolean at each tick.
- Shutdown empties the registry and ends the run; runs here do not include it.
- gRPC, HTTP, JSON, YAML, tokens, logging and metrics.
- Request validation, allow-list checks and configuration loading, settled by reading one branch each.
- Building pod templates, picking containers, waiting for readiness and the capture check: field copying and single checks.
