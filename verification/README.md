# TraceGlass event pipeline, verified

A Dafny model of TraceGlass, a Windows process and TCP activity viewer written in C: from the
snapshots its polling worker takes, through the event queue and the event store, to what its window
shows and what its exporters write. `dafny verify dfyconfig.toml` checks everything.

## What is modelled

| file | contents |
|---|---|
| `WideStrings.dfy`, `Formatting.dfy`, `Events.dfy` | NUL-terminated UTF-16 strings, printf conversions, the event record and its names |
| `Capacity.dfy`, `StoreModel.dfy`, `StoreInvariants.dfy`, `StoreHistory.dfy` | the event store on values: one call, what every call keeps, what whole runs guarantee |
| `RecordContents.dfy` | what the process records hold, told from the events that landed in them |
| `EventStore.dfy` | the same store as a class over two growable arrays, each method proved to do what `StoreModel` says |
| `EventQueue.dfy`, `Notification.dfy` | the linked queue as a class, and the posting protocol between any number of producers and the GUI thread as a state machine |
| `ProcessSlots.dfy`, `SourceOrder.dfy`, `PidOrder.dfy` | the records of one PID as a small machine, and when the order of the two telemetry sources matters, for one process and for all records of a PID |
| `ProcessMonitor.dfy`, `NetworkMonitor.dfy` | snapshot and TCP table diffing |
| `EmittedEvents.dfy`, `ConnectionEvents.dfy` | what the emitted events say, told from snapshot entries and table rows |
| `Reconciliation.dfy`, `PolledRuns.dfy`, `UntimedProcesses.dfy`, `MixedTimes.dfy` | runs of polls composed with the store, for PIDs with times, without, and with some |
| `Detection.dfy`, `Draining.dfy` | the alert rules, and what draining the queue does to the store |
| `Sessions.dfy`, `SessionSteps.dfy` | whole sessions of polls, pushes and drains, and the objects that run them |
| `Sorting.dfy`, `EventOrder.dfy`, `Views.dfy`, `Gui.dfy`, `ProcessTree.dfy` | the comparator, the lists as a state machine, the window's handlers in place, the process tree |
| `ViewCommands.dfy`, `SortedLists.dfy` | what the window shows, told from the commands it was given and from what its rows show |
| `ExportFields.dfy`, `ExportFile.dfy`, `Json.dfy`, `JsonExport.dfy`, `JsonWriter.dfy`, `Csv.dfy`, `CsvExport.dfy`, `CsvWriter.dfy`, `TextExport.dfy`, `ExportReading.dfy`, `Exports.dfy` | the exported fields, the file, parsers after RFC 8259 and RFC 4180, the documents and their round trips, the writers, and what a reader finds in a file |

The environment is made of parameters: snapshots and TCP rows, clocks and time conversion, case
folding, whether each allocation succeeds, how much WriteFile takes, and what process queries
answer. Where C code updates state in place the model does too: a class or an array, with a method
whose contract ties the new state to a function of the old one. The theorems are about those
functions, and say what they compute without naming them: from the calls of a run, the entries of
a snapshot, the commands given to the window, the names in a file.

A size_t has 64 bits. Counters that can wrap do; the sequence number is proved not to.

## Conditions found in the code

- The order in which two sources report a PID decides which of its records end up active in exactly two
  cases. Some process of the PID is started and never stopped by its own key, and there is a stop
  without a creation time: it hits whatever is active when it comes. Or there is no such process, and
  both a start without a time and any stop: the start leaves a wildcard record active if it comes last
  and none if it comes first. `PidOrderMattersIff` and `SourcesCommuteIff` are equivalences over sets of
  events small enough for one record each, with instances of both cases in `WildcardStopOrderMatters`
  and `UntimedStartOrderMatters`. Under its own key alone a process is affected only in the first case:
  `OrderMattersIff`.
- A notification whose post does not arrive (no window, or PostMessageW failing, whose result
  push_event ignores) leaves the flag raised for ever: `LostPostStarves`, in a state
  `PostCanBeLost` reaches. Without such a loss no wakeup is lost: `PendingIsOneToken` gives the exact
  condition.
- In fallback mode, for a PID whose entries always carry a time, the store mirrors the last snapshot
  unless an identity vanished and came back, since an inactive record with a known time is never
  revived: `StoreMirrorsSnapshot` is an equivalence, with an instance in `ReturnIsMissed`. A PID that
  never carries a time follows the snapshots faithfully: `UntimedMirrors`.
- A PID that carries a time in some snapshots and none in others, as when OpenProcess fails once, can
  hide the replacement of one process by another: the polls stay silent, later stop the new process, and
  the old one stays active for good (`ReplacedStaysActive`). `ShownThroughoutIff` says exactly for which
  snapshots the store shows the entry at every poll; `MixedMirrors` gives a weaker condition under which
  it is right after the last one.
- Handed an arbitrary log, the time column of the comparator is an order exactly when unconvertible
  times do not separate reversed ones: `TimeColumnOrderedIff`, with a cyclic example. The example needs a
  zero timestamp, which no producer of this program stores, as each falls back to the local time.
- A list without a sort column keeps arrival order until a rebuild sorts it by time:
  `RebuildKeepsArrivalOrderIff` says, on the times of the log, when the two agree, and
  `RebuildCanReorder` is a run where they do not.
- `network_count` and `alert_count` run ahead of the log when reserve_events fails after counting:
  `CountersCount` gives the exact difference.
- The two guards that cannot fire, `active_process_count > 0` in a stop and `parent_index != index`
  in the tree, are proved idle: `StopGuardIdle`, `ParentIsReal`.

## Model

| member | source | states |
|---|---|---|
| Capacity.ReserveSound | src/event_store.c:16-46 | every capacity the store ever holds is 0 or initial * 2^k, and its byte size fits size_t |
| Capacity.ReserveFailsIff | src/event_store.c:19-41 | with memory at hand a reservation fails iff no power-of-two step both covers the request and has a byte size size_t can hold |
| Capacity.DoubleUntilLeast | src/event_store.c:30-35 | the doubling loop stops at the smallest step that covers the request |
| StoreModel.FindProcessIs | src/event_store.c:98-116 | lookup returns the newest exact record; without one, the newest active record that matches; nothing only when there is neither, or the PID is 0 |
| StoreInvariants.RunConsistent | src/event_store.c:140-206 | after any calls and any allocation failures: no two records share an exact identity, active records do not match even through the wildcard, the active count is right, capacities are sound, event i has sequence i + 1 |
| StoreInvariants.MergeRecord | src/event_store.c:122-138 | a wildcard record may gain a time in place without breaking uniqueness or separation of the records |
| StoreInvariants.StopGuardIdle | src/event_store.c:186-188 | the guard `active_process_count > 0` never decides: the count is positive whenever a stop finds an active record |
| StoreInvariants.RunExtends | src/event_store.c:122-206 | between any two points of a run the log only grows, a record's PID and known time never change, and an inactive record stays inactive |
| StoreHistory.IdentityHistory | src/event_store.c:149-190 | over any run at all an exact identity has a record iff it was reported, and is active only if it was started and not stopped |
| StoreHistory.ActiveIffStartedNotStopped | src/event_store.c:149-190 | an identity is active at the end of a run iff a start and no stop of it was processed, however ordered and repeated, when no stop of its PID lacks the creation time |
| ProcessSlots.SlotMoves | src/event_store.c:149-190 | one call moves the times recorded and active for the event's PID by one step of a small machine, and those of no other PID: a start takes a wildcard record over, a timed stop hits its own or the wildcard record, an untimed one any active record |
| ProcessSlots.RunningCounted | src/event_store.c:166-188 | the active count is the number of active keys, when no event carries PID 0 |
| PidOrder.PidOrderMattersIff | src/event_store.c:7-14 | over the runs of a set of events that lose no record, which records of a PID end up active, wildcards included, depends on the order iff a process of the PID is started and not stopped by its own key and there is an untimed stop, or there is none and both an untimed start and some stop |
| PidOrder.SourcesCommuteIff | src/event_store.c:140-190 | all these runs leave the same active records of nonzero PID iff no PID is in that position |
| PidOrder.SourcesCommute | src/event_store.c:150-190 | any two such runs - interleaved, permuted, duplicated - leave the same active records, and the same active count unless an event carries PID 0, when no PID is; without any bound on the number of events |
| PidOrder.PidDecides | src/event_store.c:150-190 | away from that position the set alone decides each record: a timed one is active iff started and not stopped by its key, a wildcard one iff no timed one is and an untimed start is there |
| PidOrder.UntimedLastRun | src/event_store.c:149-168 | untimed starts that come after all else, with nothing left, leave a wildcard record active |
| PidOrder.UntimedFirstRun | src/event_store.c:122-190 | untimed starts that come first do not survive a stop of the PID |
| PidOrder.UntimedStartOrderMatters | src/event_store.c:7-14 | an instance: an untimed start and a timed stop, in both orders, with active counts 0 and 1 |
| SourceOrder.OrderMattersIff | src/event_store.c:7-14 | for one process under its own key: over those runs it can end up both active and not iff the set starts it, never stops it by its own key, and stops its PID without a time |
| SourceOrder.IdentitiesCommuteIff | src/event_store.c:140-190 | all these runs agree on the active exact identities, wildcard records aside, iff no process is in that position |
| SourceOrder.IdentitiesCommute | src/event_store.c:150-190 | any two such runs agree on them when no process is, without any bound on the number of events |
| SourceOrder.StopsFirstRun | src/event_store.c:169-190 | untimed stops that come before everything else of their PID find nothing, and the process stays active |
| SourceOrder.StoppedForGood | src/event_store.c:169-190 | after a start and an untimed stop of its PID nothing makes a process active again |
| SourceOrder.WildcardStopOrderMatters | src/event_store.c:7-14 | an instance: a start with a time and a stop without one, in both orders |
| StoreHistory.LogOrderedAlways | src/event_store.c:150-205 | over any run the log holds at most one start and one stop of an exact identity, never the stop first |
| StoreHistory.CountersCount | src/event_store.c:191-199 | the network and alert counters equal the stored events of the type plus those counted and then lost in reserve_events, modulo 2^64 |
| StoreHistory.GrowthIsLinear | src/event_store.c:16-78 | the elements moved by all reallocations of a run are at most twice the elements stored |
| RecordContents.RecordHolds | src/event_store.c:122-138 | after any run a record's name, parent name, path, known parent, creation time and stop time are each what the last event that landed in it and supplied one said, cut to MAX_PATH; empty fields erase nothing, and what nobody supplied is blank |
| RecordContents.RecordStarted | src/event_store.c:150-168 | a record's start time is that of the start that appended it, and none if a stop did, whatever lands in it later |
| RecordContents.AlwaysUnstopped | src/event_store.c:159-168 | an active record has no stop time |
| RecordContents.CallAnswers | src/event_store.c:140-206 | a call stores its event, under the next sequence number, iff it reports it as accepted; it does so unless the process is recorded already or memory runs out, and it returns FALSE only for lack of memory |
| EventStores.EventStore.constructor | src/event_store.c:80-87 | a fresh store is the empty one, with sequence numbers from 1 |
| EventStores.EventStore.ReserveEvents | src/event_store.c:16-46 | the loop grows the array exactly as Capacity.Reserve says and keeps its elements; failure changes nothing |
| EventStores.EventStore.ReserveProcesses | src/event_store.c:48-78 | the same for the record array |
| EventStores.EventStore.FindProcess | src/event_store.c:98-116 | the backward loop returns the newest exact record, else the newest active wildcard match, as StoreModel.FindProcess defines |
| EventStores.EventStore.UpdateRecord | src/event_store.c:122-138 | one record is updated in place from the non-empty fields of the event; all others keep their value |
| EventStores.EventStore.AddStart | src/event_store.c:150-168 | the start branch turns arrays and counters into those of StoreModel.MergeStart, early returns included |
| EventStores.EventStore.AddStop | src/event_store.c:169-190 | the stop branch, likewise |
| EventStores.EventStore.Add | src/event_store.c:140-206 | one call on the arrays and counters does exactly what StoreModel.Add does to their value: new state, stored event, return value and accepted flag |
| EventQueues.EventQueue.Push | src/event_queue.c:26-62 | the linked list gains the value at its end, the flag is raised, and a post is due iff the flag was down and a window is set; no memory or a dead queue changes nothing |
| EventQueues.EventQueue.Pop | src/event_queue.c:64-89 | the oldest value leaves the list; the flag falls only when the list was already empty |
| EventQueues.EventQueue.Destroy | src/event_queue.c:91-112 | the free loop visits exactly the queued nodes, in order, each once, and the queue is dead |
| EventQueues.EventQueue.SetWindow | src/event_queue.c:17-24 | the window changes only while the queue is initialised |
| Notification.PendingIsOneToken | src/event_queue.c:42-60 | in every reachable state at most one notification is outstanding among posting producers, posted messages and the running drain, and `pending` means exactly one exists iff no post was lost |
| Notification.NoLostWakeup | src/event_queue.c:52-60 | while values are queued and no post was lost, the flag is up, one token exists and somebody can act on it |
| Notification.QueueSettles | src/gui.c:1241-1260 | once pushes stop and posts arrive, every schedule ends after exactly the measure's steps, with an empty queue and everything popped in push order |
| Notification.LostPostStarves | src/event_queue.c:58-60 | a post that does not arrive silences the queue for good: nothing pushed later is ever popped |
| Notification.PostCanBeLost | src/event_queue.c:58-60 | two steps reach such a state: the first push of a session and its failing post |
| Notification.FirstInFirstOut | src/event_queue.c:42-81 | popped then queued is exactly pushed, in lock order, so each producer's own order is kept |
| Snapshots.FindEntry | src/process_monitor.c:24-47 | the binary search and scan find what a linear scan under the wildcard rule finds: a match iff there is one, and the first |
| Snapshots.FindEntryByPid | src/process_monitor.c:49-65 | the first entry of the PID, or nothing iff there is none |
| ProcessMonitors.SortEntries | src/process_monitor.c:212-212 | qsort with compare_snapshot_entries leaves a permutation sorted by PID and then creation time, as the lookups demand |
| ProcessMonitors.EmitStartEvent | src/process_monitor.c:218-253 | the pushed start carries the entry, its plausible parent in the same snapshot, and its creation time when that converts |
| ProcessMonitors.EmitStopEvent | src/process_monitor.c:255-280 | the pushed stop likewise, with the parent looked up in the previous snapshot |
| ProcessMonitors.ProcessMonitor.Poll | src/process_monitor.c:296-328 | a successful poll queues exactly the starts of unmatched new entries, then the stops of unmatched old ones (none on the first poll), less those without memory, and none on a destroyed queue; it remembers the sorted snapshot; a failed one changes nothing |
| EmittedEvents.PollReports | src/process_monitor.c:305-321 | a poll emits one start per entry missing in the previous snapshot, then one stop per previous entry missing now, in snapshot order, and each reports its own entry: key, name, path, time, details and parent |
| EmittedEvents.UnmatchedAre | src/process_monitor.c:305-321 | where an entry is missing in a snapshot iff no entry of its PID has the same time or lacks one, nor does it lack one itself; each such entry counts once |
| EmittedEvents.StartReports | src/process_monitor.c:232-252 | a start carries the key and name of the first entry of the parent PID, or the bare parent PID if there is none or it is known to be younger; its creation time where that converts; and the text for the first or a later poll |
| EmittedEvents.StopReports | src/process_monitor.c:268-278 | a stop likewise, from the snapshot that still had the process, at the time it was noticed |
| EmittedEvents.RunReports | src/process_monitor.c:296-328 | every event of a run of polls reports an entry of one of its snapshots in that way |
| EmittedEvents.ParentsAreOlder | src/process_monitor.c:236-237 | over a run no event reports a parent known to be younger than its process |
| Reconciliation.PollMentions | src/process_monitor.c:305-321 | a poll starts an identity iff it appeared and stops it iff it vanished |
| Reconciliation.RunMentions | src/process_monitor.c:296-328 | a run of polls starts an identity iff some snapshot held it and stops it iff it vanished |
| Reconciliation.TransitionsAlternate | src/process_monitor.c:296-328 | for snapshots without duplicate keys, the events of an identity alternate start, stop, ..., beginning with a start and ending on whether the last snapshot holds it |
| Reconciliation.ActiveIffNeverVanished | src/event_store.c:149-190 | after a run of polls an identity is active in the store iff the last snapshot holds it and it never vanished |
| Reconciliation.StoreMirrorsSnapshot | src/process_monitor.c:296-328 | the store's active identities of a timed PID equal the last snapshot's iff none of the latter vanished and came back |
| UntimedProcesses.UntimedMirrors | src/process_monitor.c:203-208 | a PID whose entries never carry a time is active in the store iff the last snapshot lists it, also after vanishing and returning |
| MixedTimes.PollReaches | src/process_monitor.c:296-328 | what one poll does to the records of a PID listed at most once, by the times it was seen with before and now: nothing if one of them is unknown or they agree, else a start of the new and a stop of the old time |
| MixedTimes.MixedMirrors | src/process_monitor.c:296-328 | a PID listed at most once, with a time or without, is active in the store iff the last snapshot lists it, when each stretch of silent polls begins with a fresh time or none and ends on the time it began with, on none, or, having begun without one, on a fresh time |
| MixedTimes.ShownThroughoutIff | src/process_monitor.c:296-328 | an equivalence over all snapshots that list the PID at most once: after every poll the store has exactly one active record of the PID, agreeing with its entry, or none if unlisted, iff the stretches are as above and every time in one agrees with its first |
| MixedTimes.ReplacedStaysActive | src/process_monitor.c:24-47 | an instance: seen with time 5, with none, with 6, gone; process 5 stays active for good |
| Connections.ConnectionsOrdered | src/network_monitor.c:12-27 | the five-field comparison is a total order, 0 only between equal keys |
| Connections.SortedConnectionsUnique | src/network_monitor.c:184-186 | so what is remembered does not depend on the order of the table's rows |
| Connections.ConnectionExists | src/network_monitor.c:29-41 | bsearch on the sorted keys finds a key iff it is there |
| Connections.FreshIsNew | src/network_monitor.c:166-182 | a key is emitted as often as it is ESTABLISHED now if the previous poll lacked it, else never |
| Connections.EventsAreFresh | src/network_monitor.c:51-82 | the emitted events report exactly those keys, one for one and in table order |
| ConnectionEvents.KeysAreRows | src/network_monitor.c:166-182 | the remembered keys are those of the ESTABLISHED rows, ports in host order |
| ConnectionEvents.RowsReported | src/network_monitor.c:51-82 | one event per ESTABLISHED row that no remembered key matches, in table order, with the row's own addresses, ports and owner |
| ConnectionEvents.NewRowsAre | src/network_monitor.c:166-182 | these rows are exactly those, each once |
| NetworkMonitors.ScanTable | src/network_monitor.c:166-182 | the row loop collects the ESTABLISHED keys in place and queues the events of the unknown ones |
| NetworkMonitors.NetworkMonitor.Poll | src/network_monitor.c:111-193 | `previous` stays sorted and becomes a permutation of the ESTABLISHED rows; exactly the new ones are queued, none on a destroyed queue; a failed poll changes nothing |
| Detection.DetectionEvaluate | src/detection.c:41-114 | the caller's buffer receives the event's alerts in rule order, as many as it holds |
| Detection.AlertsFit | include/detection.h:7-7 | no event deserves more than two alerts, so three slots never lose one, and alerts deserve none |
| Detection.AlertsAre | src/detection.c:41-114 | a start deserves an alert iff an Office name is the parent of an interpreter's, and one iff its path lies in a temporary directory; a connection iff an interpreter owns it; each with its rule, severity and text |
| Detection.FindName | src/detection.c:6-32 | the loop decides membership in a name list up to case |
| Draining.DrainExtendsLog | src/gui.c:1250-1260 | when no call fails, a drain extends the log by each accepted event immediately followed by its alerts in rule order, in queue order |
| Draining.DrainFeedsQueue | src/gui.c:1250-1252 | the process events a drain hands to the store are exactly the queued ones, in order: alerts add none |
| Draining.DrainsCompose | src/gui.c:1250-1260 | two drains in a row hand the store what one drain of both would, whatever the allocator answers: how pops are cut into drains makes no difference |
| Sessions.ProcessEventsConserved | src/gui.c:1241-1260 | in any schedule of polls, other pushes and whole or partial drains, the process events fed to the store and those queued are together an interleaving of the polls' events and of the pushed ones, none lost or repeated |
| Sessions.PollsAccounted | src/gui.c:1241-1260 | in fallback mode, where only polls report processes, they are exactly the events of the successful polls, in order |
| Sessions.FallbackPipeline | src/process_monitor.c:296-328 | whenever such a session is settled, the store's active identities of a timed PID equal the last snapshot's iff none of those vanished and came back |
| Sessions.FallbackUntimed | src/process_monitor.c:296-328 | and a PID that never carries a time is active iff the last snapshot lists it |
| Sessions.FallbackMixed | src/process_monitor.c:296-328 | and so is one that carries a time in some snapshots only, after clean stretches |
| Sessions.OrdinaryPipeline | src/telemetry.c:11-19 | with ETW beside the polls, whenever the queue is drained: a process is active iff a snapshot held it or its start was pushed, and it never vanished nor was its stop pushed, if the polls and the pushed stops know the times of its PID |
| Sessions.ReturnIsMissed | src/event_store.c:150-155 | three snapshots - there, gone, back - after which the snapshot holds the identity and the store does not |
| SessionSteps.PollStep | src/telemetry.c:12-12 | ProcessMonitor.Poll on the window's queue is the poll step of a session |
| SessionSteps.PushStep | src/event_queue.c:26-62 | EventQueue.Push is a push step, or none without memory |
| SessionSteps.DrainStep | src/gui.c:1241-1273 | MainWindow.DrainEvents is the pushes that arrive in time and then a drain of everything queued |
| SessionSteps.RunSession | src/telemetry.c:7-24 | a fresh poller and a fresh window, given any calls, run exactly the session those calls mean |
| SessionSteps.CallsAreSteps | src/telemetry.c:7-24 | and every such session is a behaviour of Sessions, so its theorems hold of these objects |
| EventOrder.EventsOrdered | src/gui.c:808-854 | for every view, column and direction the comparator is a strict total order on a log under the stated condition; sequence numbers break every tie |
| SortedLists.ListsAreOrdered | src/gui.c:799-854 | in every reachable state at rest a list with an active sort column stands in the order of what its rows show under that column's title, upwards or downwards, and rows that show the same in the order of logging - for every list and column |
| SortedLists.OrdinalBelow | src/gui.c:771-777 | ordinal comparison is the dictionary order of the folded units |
| SortedLists.FirstDrainByTime | src/gui.c:1265-1270 | a list without a sort column is in the order of time after the first drain |
| SortedLists.LaterDrainsAppend | src/gui.c:1229-1236 | and every later drain appends the new rows in the order of logging and moves none |
| EventOrder.TimeColumnOrderedIff | src/gui.c:784-794 | the time column orders a log iff no event with an unconvertible time lies, by sequence, between two whose times run backwards |
| EventOrder.AllConvertAgree | src/gui.c:788-792 | in particular it does when all times convert |
| EventOrder.UnconvertibleTimeCycles | src/gui.c:784-794 | two events of one minute and a zero timestamp between them precede one another in a circle, under a conversion that rejects what no calendar has; the comparator is given logs no producer writes |
| EventOrder.SortedRowsUnique | src/gui.c:887-903 | the sorted row list is determined by the set of rows, whatever the insertion order and the sorting algorithm |
| WideStrings.OrdinalTransitive | src/gui.c:771-777 | ordinal comparison of folded units is transitive |
| WideStrings.OrdinalEqual | src/utils.c:85-90 | it reports equality exactly for strings that fold to the same units |
| Views.NextConsistent | src/gui.c:1241-1322 | every handler keeps: if nothing is dirty and no filter timer runs, all lists and the overview are what a full rebuild would show |
| Views.ListsAreExact | src/gui.c:924-950 | in every reachable state at rest each list holds exactly the indices at or above its floor that pass its filters, each once, sorted if a sort column is active |
| Views.OverviewIsExact | src/gui.c:976-1019 | and the overview lists are the newest passing events and alerts above its floor |
| ViewCommands.BehaviourFollows | src/gui.c:1241-1322 | log, floors, filters, timer, pause and sort state are what the commands since the window opened make them |
| ViewCommands.ListFollows | src/gui.c:1303-1322 | at rest a list shows, each once, exactly the passing events that arrived since its view was last cleared, or since the start, and is sorted by the column clicked last, upwards at the first click and then back and forth |
| ViewCommands.OverviewFollows | src/gui.c:976-1014 | and the overview the newest 8 events and 5 alerts of those that pass and arrived since it was last cleared |
| ViewCommands.RestsUnlessPaused | src/gui.c:1275-1301 | the window is at rest unless it is paused or a changed search waits for its timer |
| ViewCommands.SearchFinds | src/gui.c:673-697 | a search looks in twelve places, the PIDs and ports among them uncut |
| ViewCommands.TypeIsChosen | src/gui.c:699-708 | the event filter keeps the events whose shown type is the chosen entry |
| Views.NewestFewIsExact | src/gui.c:986-1014 | these are passing, newest first, at most 8 (alerts 5); one is missing only from a full list and is then older than all listed |
| Views.VisibleIsExact | src/gui.c:932-940 | the rows a rebuild collects are exactly the shown indices, ascending, each once |
| Views.RebuildChangesNothing | src/gui.c:924-950 | with an active sort column a full rebuild of a list at rest changes neither its rows nor their order |
| Views.RebuildKeepsArrivalOrderIff | src/gui.c:941-943 | without one, a rebuild leaves the rows in place iff, row by row, the times of the logged events do not decrease and rows with equal or unconvertible times are in logged order |
| Views.LoggedOrderStaysIff | src/gui.c:941-943 | rows in logged order stay iff no shown event converts to an earlier time than one shown before it |
| Views.RebuildCanReorder | src/gui.c:1241-1282 | a run of the window in which choosing the same filter again swaps two rows |
| Gui.MainWindow.EventMatchesSearch | src/gui.c:673-697 | the text occurs, up to case, in one of the twelve searched texts, or is empty |
| Gui.MainWindow.AddRows | src/gui.c:1229-1236 | one event appends its row to exactly the lists that show it at or above their floors |
| Gui.MainWindow.AddAcceptedEvent | src/gui.c:1219-1239 | the store takes one call; the lists follow only when the event was accepted and the view runs |
| Gui.MainWindow.DrainEvents | src/gui.c:1241-1273 | with pushes of other threads arriving before any pop: everything popped goes to the store exactly as a drain of it would, the queue ends empty with its flag down, the window takes one step of the state machine, and the tree is rebuilt iff a process event was accepted while the view runs |
| Gui.MainWindow.RebuildEventLists | src/gui.c:924-950 | the three lists become the sorted visible rows and nothing else changes |
| Gui.MainWindow.RebuildOverviewLists | src/gui.c:976-1019 | the backward scan with its early exit finds what a scan of the whole log would |
| Gui.MainWindow.SortList | src/gui.c:887-903 | the rows are permuted and sorted by the active column, by time when forced, or left alone |
| Gui.MainWindow.RebuildFilteredViews | src/gui.c:1275-1282 | a paused view is only marked dirty; otherwise everything is rebuilt |
| Gui.MainWindow.TogglePause | src/gui.c:1284-1301 | resuming a dirty view rebuilds lists, tree and overview and clears the mark |
| Gui.MainWindow.ClearCurrentView | src/gui.c:1303-1322 | the floor of the view rises to the end of the log and its list empties; the log is untouched |
| Gui.MainWindow.HandleColumnClick | src/gui.c:905-922 | the column becomes the sort column, or its direction flips, and the rows are sorted so |
| Gui.MainWindow.SearchChange | src/gui.c:1798-1803 | a new text counts at once and starts the timer; rows are untouched |
| Gui.MainWindow.FilterTimerFires | src/gui.c:1784-1789 | the timer's end rebuilds the filtered views |
| Gui.MainWindow.SelectFilter | src/gui.c:1804-1807 | choosing an event type rebuilds the filtered views |
| ProcessTree.ParentIsReal | src/gui.c:1021-1028 | the parent index names another record that stands for the reported key, the newest of that identity or else the newest that matches, and is -1 exactly if none is reported, the PID is the process's own, or no record stands for it |
| ProcessTree.ParentsCanCycle | src/gui.c:1021-1028 | two starts make a cyclic parent map - a parent PID that is gone and is later given to a child - so the three-colour marking is needed |
| ProcessTree.InsertProcessNode | src/gui.c:1030-1056 | the recursion ends on any parent map and inserts the record after its ancestors, leaving finished records and the visits in progress as they were |
| ProcessTree.RebuildProcessTree | src/gui.c:1058-1090 | with memory every record ends up placed; without, the tree is left empty |
| ProcessTree.TreeIsForest | src/gui.c:1030-1080 | every record is inserted exactly once, under the root or under its real parent, which was inserted earlier; an edge is missing only on a cycle |
| ProcessTree.OneCutPerCycle | src/gui.c:1030-1056 | each cycle of the parent map loses exactly one edge |
| WideStrings.CopyWstring | src/utils.c:38-52 | the buffer ends up holding the source, cut to fit, and terminated |
| WideStrings.StringContainsInsensitive | src/utils.c:54-83 | true iff the needle occurs at some position up to folding |
| WideStrings.PathBasename | src/utils.c:92-106 | the part after the last separator of either kind |
| Events.ExportNameInjective | src/events.c:40-57 | an exported type name identifies its type |
| Events.SeverityNameInjective | src/events.c:59-73 | a severity name identifies its severity |
| ExportFiles.ExportFile.WriteAll | src/export.c:26-38 | success means everything was appended, failure that a part was; partial writes are continued, and a device that makes progress makes it succeed |
| ExportFiles.ExportFile.WriteUtf8 | src/export.c:40-76 | the same for a text; without memory or beyond INT_MAX it fails and writes nothing |
| ExportFields.FieldsIdentify | src/export.c:175-208 | events with equal exported fields differ at most in sequence, creation times, parent name and executable path |
| ExportFields.TimestampInjective | src/export.c:78-95 | a formatted timestamp determines the time, for all values of its parts |
| ExportReading.TimestampReads | src/export.c:78-95 | it reads back as year, month, day, hour, minute, second and milliseconds, in this order |
| ExportReading.WordsRead | src/events.c:5-73 | every exported type and severity word reads back |
| ExportReading.ObjectReports | src/export.c:175-208 | looking up each of the 14 names in an event's JSON object gives that event's own value |
| ExportReading.RecordReports | src/export.c:265-288 | and so does the column of the name in its CSV record |
| ExportReading.TextLineReports | src/export.c:308-318 | a line of a text file holds the event's own time, type, name, PID, parent PID and details, in their places |
| JsonDocuments.StringRoundTrip | src/export.c:118-145 | a parser of section 7 of RFC 8259 reads every string back from its escaped form |
| JsonDocuments.JsonRoundTrip | src/export.c:164-214 | a parser of RFC 8259 reads the document of any events back as one object of 14 named members per event, in order, every string and number recovered |
| JsonDocuments.JsonDocumentsIdentify | src/export.c:164-214 | equal documents come from events equal in all exported fields |
| JsonWriters.PutEscaped | src/export.c:120-142 | one unit is escaped within 7 units of room, terminator of the \u form included |
| JsonWriters.EscapeInto | src/export.c:112-145 | the escape loop never leaves its 6 * length + 3 units, and they hold the quoted text, terminated |
| JsonWriters.WriteJsonString | src/export.c:97-149 | the quoted text is written, or part of it on failure; without memory, or when the buffer size would exceed size_t, nothing is |
| JsonWriters.WriteJsonField | src/export.c:151-162 | one text member with its indentation and line end |
| JsonWriters.WriteJsonNumber | src/export.c:184-188 | one numeric member, likewise |
| JsonWriters.WriteJsonObject | src/export.c:175-212 | one event's object; failure leaves a part of it |
| JsonWriters.WriteJsonExport | src/export.c:164-214 | success leaves exactly the document of the events from first_event on, failure a part of it |
| CsvDocuments.QuotedRoundTrip | src/export.c:237-244 | a parser of section 2 of RFC 4180 reads every text back from its quoted form |
| CsvDocuments.CsvRoundTrip | src/export.c:251-291 | after the byte order mark, a parser of RFC 4180 reads back the header and exactly 14 texts per event, whatever quotes, commas and line breaks they hold |
| CsvDocuments.CsvDocumentsIdentify | src/export.c:251-291 | equal documents come from events equal in all exported fields |
| CsvWriters.QuoteInto | src/export.c:231-245 | the quoting loop never leaves its 2 * length + 3 units, and they hold the quoted text, terminated |
| CsvWriters.WriteCsvField | src/export.c:216-249 | the quoted text is written, or part of it on failure; without memory, or when the buffer size would exceed size_t, nothing is |
| CsvWriters.WriteCsvRecord | src/export.c:265-288 | one event's record; failure leaves a part of it |
| CsvWriters.WriteCsvExport | src/export.c:251-291 | success leaves exactly the byte order mark, header and records, failure a part of them |
| TextExports.LinesComplete | src/export.c:308-318 | the line buffer holds every event whose name and details fit their own buffers: no line is cut |
| TextExports.WriteTextExport | src/export.c:293-324 | success leaves exactly the byte order mark and the lines, failure a part of them |
| Exports.ExportEventsToFile | src/export.c:326-376 | a reported success means the file reads back as the events, each of their values under its own name or in its place in the line; failure leaves at most a part of the document; nothing but the environment makes a valid call fail |

## Left out

- ETW sessions, TDH properties and the ETW callback: an arbitrary producer of start and stop events stands for them.
- Toolhelp, GetProcessTimes, IP Helper and Winsock calls: their results are inputs.
- Threads, handles and polling waits, the logger and `main.c`: no property beyond the queue's protocol.
- The posts of pushes that arrive during `Gui.MainWindow.DrainEvents`: `Notification` covers every interleaving of pushes, posts, dispatches and pops.
- Changing the notification window or destroying the queue while producers run: shutdown order is not modelled.
- Layout, fonts, DPI, tooltips, clipboard, details window, menus, status text and the text of list and tree rows: a list is the sequence of its row parameters, a tree the sequence of its insertions.
- ListView_InsertItem and TreeView_InsertItem failing: every insertion succeeds.
- The depth of the C stack in the recursion of insert_process_node: the recursion is only proved to end.
- Whether the displayed tree follows later updates: coalesced events update records without a rebuild, so each rebuild is exact for the records it sees.
- qsort, bsearch and ListView_SortItems: one specified sort and one binary search stand for them; any sort meeting the specification gives the same lists where the order is strict.
- Time-zone and FILETIME conversion, towlower and the folding of CompareStringOrdinal: arbitrary functions on units; surrogate pairs are not folded as characters.
- UTF-8: the export file holds UTF-16 units, the byte order mark is the unit FEFF, and partial writes split between units.
- Fixed buffer lengths of the event's strings: strings are sequences of nonzero units, cut where the code copies them into a shorter buffer.
- Save As handling, file extensions and error messages.
- The contents of a block whose realloc failed: the old block is kept, as realloc promises, but not followed.
- Reconciliation.StoreMirrorsSnapshot: only for a PID whose entries always carry a time, because the others follow different conditions, stated by UntimedMirrors, MixedMirrors and ShownThroughoutIff.
- MixedTimes.ShownThroughoutIff: only for snapshots that list a PID at most once, because a process snapshot of Windows does.
- Sessions.OrdinaryPipeline: only where stops of the PID carry times, because otherwise the schedule decides, as PidOrderMattersIff says.
- CsvDocuments.CsvRoundTrip: reads quoted fields with any unit in them, where the grammar of RFC 4180 lists only printable ASCII, comma, CR, LF and doubled quotes, because the program exports other units too.
- JsonDocuments.JsonRoundTrip: a lone surrogate in a string is one unit like any other, because the round trip is stated before the conversion to UTF-8.
