/** Snapshot diffing (src/process_monitor.c): the lookups in a sorted snapshot and the poll that
    turns two successive snapshots into start and stop events.  Snapshots are inputs. */
module Snapshots {
  import opened WideStrings
  import opened Formatting
  import opened Events
  import StoreModel

  datatype SnapshotEntry = SnapshotEntry(key: ProcessKey, parentPid: Dword, name: Wide, path: Wide)

  /** The clock of one poll: the local time of a creation time when it converts, and the time of
      day read while handling an entry. */
  datatype Clock = Clock(convert: Qword -> Option<SystemTime>, now: nat -> SystemTime)

  function CompareEntries(left: SnapshotEntry, right: SnapshotEntry): int {
    if left.key.pid < right.key.pid then -1
    else if left.key.pid > right.key.pid then 1
    else if left.key.creationTime < right.key.creationTime then -1
    else if left.key.creationTime > right.key.creationTime then 1 else 0
  }

  ghost predicate PidSorted(entries: seq<SnapshotEntry>) {
    forall i, j :: 0 <= i < j < |entries| ==> entries[i].key.pid <= entries[j].key.pid
  }

  predicate Matches(entry: SnapshotEntry, key: ProcessKey) { StoreModel.KeysMatch(entry.key, key) }

  /** What a linear scan under the wildcard rule finds. */
  function FirstMatch(entries: seq<SnapshotEntry>, key: ProcessKey): (r: Option<nat>)
    ensures r.Some? ==> r.value < |entries| && Matches(entries[r.value], key)
    ensures forall i :: 0 <= i < (if r.Some? then r.value else |entries|) ==> !Matches(entries[i], key)
  {
    if entries == [] then None
    else if Matches(entries[0], key) then Some(0)
    else
      match FirstMatch(entries[1..], key)
      case None => None
      case Some(i) =>
        assert entries[1..][i] == entries[i + 1];
        Some(i + 1)
  }

  /** Some entry matches the key under the wildcard rule. */
  predicate Listed(entries: seq<SnapshotEntry>, key: ProcessKey) { FirstMatch(entries, key).Some? }

  /** The first entry of a PID. */
  function FirstOfPid(entries: seq<SnapshotEntry>, pid: Dword): (r: Option<nat>)
    ensures r.Some? ==> r.value < |entries| && entries[r.value].key.pid == pid
    ensures forall i :: 0 <= i < (if r.Some? then r.value else |entries|) ==> entries[i].key.pid != pid
  {
    if entries == [] then None
    else if entries[0].key.pid == pid then Some(0)
    else
      match FirstOfPid(entries[1..], pid)
      case None => None
      case Some(i) =>
        assert entries[1..][i] == entries[i + 1];
        Some(i + 1)
  }

  /** find_entry: binary search for the PID, then a scan of its entries. */
  method FindEntry(entries: seq<SnapshotEntry>, key: ProcessKey) returns (found: Option<nat>)
    requires PidSorted(entries)
    ensures found == FirstMatch(entries, key)
  {
    var low := LowerBound(entries, key.pid);
    while low < |entries| && entries[low].key.pid == key.pid
      invariant low <= |entries|
      invariant forall i :: 0 <= i < low ==> !Matches(entries[i], key)
      invariant forall i :: low <= i < |entries| ==> entries[i].key.pid >= key.pid
    {
      if entries[low].key.creationTime == key.creationTime ||
         entries[low].key.creationTime == 0 || key.creationTime == 0 {
        return Some(low);
      }
      low := low + 1;
    }
    return None;
  }

  /** The binary search both lookups share: the first index whose PID is at least `pid`. */
  method LowerBound(entries: seq<SnapshotEntry>, pid: Dword) returns (low: nat)
    requires PidSorted(entries)
    ensures low <= |entries|
    ensures forall i :: 0 <= i < low ==> entries[i].key.pid < pid
    ensures forall i :: low <= i < |entries| ==> entries[i].key.pid >= pid
  {
    low := 0;
    var high := |entries|;
    while low < high
      invariant low <= high <= |entries|
      invariant forall i :: 0 <= i < low ==> entries[i].key.pid < pid
      invariant forall i :: high <= i < |entries| ==> entries[i].key.pid >= pid
    {
      var middle := low + (high - low) / 2;
      if entries[middle].key.pid < pid {
        low := middle + 1;
      } else {
        high := middle;
      }
    }
  }

  /** find_entry_by_pid. */
  method FindEntryByPid(entries: seq<SnapshotEntry>, pid: Dword) returns (found: Option<nat>)
    requires PidSorted(entries)
    ensures found == FirstOfPid(entries, pid)
  {
    var low := LowerBound(entries, pid);
    found := if low < |entries| && entries[low].key.pid == pid then Some(low) else None;
  }

  // ---- the emitted events ----

  /** The entry of the parent PID, unless it was created after the child and so is a reuse. */
  predicate PlausibleParent(parent: SnapshotEntry, entry: SnapshotEntry) {
    parent.key.creationTime == 0 || entry.key.creationTime == 0 ||
    parent.key.creationTime <= entry.key.creationTime
  }

  function WithParent(e: Event, entry: SnapshotEntry, parent: Option<SnapshotEntry>): (r: Event)
    ensures r.kind == e.kind && r.process == e.process
  {
    if parent.Some? && PlausibleParent(parent.value, entry)
    then e.(parent := parent.value.key, parentName := Truncated(parent.value.name, MAX_PATH))
    else e
  }

  /** The event fields both kinds of transition share, before the time and the details. */
  function Transition(kind: EventType, entry: SnapshotEntry, parent: Option<SnapshotEntry>): Event {
    WithParent(
      NO_EVENT.(kind := kind, process := entry.key, parent := ProcessKey(entry.parentPid, 0),
                processName := Truncated(entry.name, MAX_PATH),
                executablePath := Truncated(entry.path, MAX_PATH)),
      entry, parent)
  }

  function StartEvent(entry: SnapshotEntry, parent: Option<SnapshotEntry>, baseline: bool, time: SystemTime): Event {
    var e := Transition(ProcessStart, entry, parent);
    var text :=
      W(if baseline then "Discovered at startup; parent " else "Started; parent ") +
      (if e.parentName != [] then e.parentName else W("<unknown>")) +
      W(" (PID ") + Decimal(e.parent.pid) + W("); path ") +
      (if e.executablePath != [] then e.executablePath else W("<access denied or unavailable>"));
    e.(timestamp := time, details := Truncated(text, DETAIL_LENGTH))
  }

  function StopEvent(entry: SnapshotEntry, parent: Option<SnapshotEntry>, time: SystemTime): Event {
    var e := Transition(ProcessStop, entry, parent);
    var text := W("Process stopped (PID ") + Decimal(entry.key.pid) + W(")");
    e.(timestamp := time, details := Truncated(text, DETAIL_LENGTH))
  }

  function ParentOf(entry: SnapshotEntry, entries: seq<SnapshotEntry>): Option<SnapshotEntry> {
    match FirstOfPid(entries, entry.parentPid)
    case None => None
    case Some(i) => Some(entries[i])
  }

  function TimeOf(clock: Clock, time: Qword, index: nat): SystemTime {
    match if time == 0 then None else clock.convert(time)
    case Some(t) => t
    case None => clock.now(index)
  }

  /** The event emitted when the entry `at` of a snapshot has appeared. */
  function StartAt(entries: seq<SnapshotEntry>, at: nat, baseline: bool, clock: Clock): Event
    requires at < |entries|
  {
    var entry := entries[at];
    StartEvent(entry, ParentOf(entry, entries), baseline, TimeOf(clock, entry.key.creationTime, at))
  }

  /** The event emitted when the entry `at` of a snapshot has vanished. */
  function StopAt(entries: seq<SnapshotEntry>, at: nat, clock: Clock): Event
    requires at < |entries|
  {
    StopEvent(entries[at], ParentOf(entries[at], entries), clock.now(at))
  }

  /** The start events for the first `n` entries of `current`. */
  function Starts(previous: seq<SnapshotEntry>, current: seq<SnapshotEntry>, baseline: bool, clock: Clock, n: nat)
    : seq<Event>
    requires n <= |current|
  {
    if n == 0 then []
    else
      var earlier := Starts(previous, current, baseline, clock, n - 1);
      if Listed(previous, current[n - 1].key) then earlier
      else earlier + [StartAt(current, n - 1, baseline, clock)]
  }

  /** `starts`, and after them the stop events for the first `n` entries of `previous`. */
  function ThenStops(starts: seq<Event>, previous: seq<SnapshotEntry>, current: seq<SnapshotEntry>, clock: Clock,
                     n: nat): seq<Event>
    requires n <= |previous|
  {
    if n == 0 then starts
    else
      var earlier := ThenStops(starts, previous, current, clock, n - 1);
      if Listed(current, previous[n - 1].key) then earlier
      else earlier + [StopAt(previous, n - 1, clock)]
  }

  lemma StartsStep(previous: seq<SnapshotEntry>, current: seq<SnapshotEntry>, baseline: bool, clock: Clock, n: nat)
    requires 0 < n <= |current|
    ensures Starts(previous, current, baseline, clock, n) ==
      var earlier := Starts(previous, current, baseline, clock, n - 1);
      if Listed(previous, current[n - 1].key) then earlier
      else earlier + [StartAt(current, n - 1, baseline, clock)]
  {
    hide StartAt, Listed;
  }

  lemma ThenStopsStep(starts: seq<Event>, previous: seq<SnapshotEntry>, current: seq<SnapshotEntry>, clock: Clock,
                      n: nat)
    requires 0 < n <= |previous|
    ensures ThenStops(starts, previous, current, clock, n) ==
      var earlier := ThenStops(starts, previous, current, clock, n - 1);
      if Listed(current, previous[n - 1].key) then earlier
      else earlier + [StopAt(previous, n - 1, clock)]
  {
    hide StopAt, Listed;
  }

  /** Everything one successful poll emits, in order. */
  function PollEvents(previous: seq<SnapshotEntry>, current: seq<SnapshotEntry>, initialized: bool, clock: Clock)
    : seq<Event>
  {
    var starts := Starts(previous, current, !initialized, clock, |current|);
    if initialized then ThenStops(starts, previous, current, clock, |previous|) else starts
  }

  /** The events that found memory for their queue node. */
  function Delivered(events: seq<Event>, memory: nat -> bool): seq<Event> {
    if events == [] then []
    else
      var n := |events| - 1;
      if memory(n) then Delivered(events[..n], memory) + [events[n]] else Delivered(events[..n], memory)
  }

  /** What these pushes leave in a queue: nothing once it is destroyed. */
  function Pushes(live: bool, events: seq<Event>, memory: nat -> bool): seq<Event> {
    if live then Delivered(events, memory) else []
  }

  lemma {:induction false} AllDelivered(events: seq<Event>, memory: nat -> bool)
    requires forall i :: 0 <= i < |events| ==> memory(i)
    ensures Delivered(events, memory) == events
  {
    if events == [] {
    } else {
      AllDelivered(events[..|events| - 1], memory);
    }
  }
}

module ProcessMonitors {
  import opened WideStrings
  import opened Events
  import opened Snapshots
  import opened EventQueues
  import opened Sorting

  class ProcessMonitor {
    var previous: seq<SnapshotEntry>
    var initialized: bool

    ghost predicate Valid()
      reads this
    {
      PidSorted(previous) && (!initialized ==> previous == [])
    }

    constructor ()
      ensures Valid() && previous == [] && !initialized
    {
      previous, initialized := [], false;
    }

    /** process_monitor_poll; `captured` is the Toolhelp enumeration, None when it failed. */
    method Poll(queue: EventQueue, captured: Option<seq<SnapshotEntry>>, clock: Clock, memory: nat -> bool)
      returns (ok: bool)
      requires Valid() && queue.Valid() && this !in queue.Repr
      modifies this, queue.Repr
      ensures Valid() && queue.Valid() && queue.initialized == old(queue.initialized)
      ensures fresh(queue.Repr - old(queue.Repr))
      ensures ok == captured.Some?
      ensures !ok ==>
        previous == old(previous) && initialized == old(initialized) && queue.Contents() == old(queue.Contents())
      ensures ok ==> initialized && SortOf(CompareEntries, captured.value, previous)
      ensures ok ==>
        var emitted := PollEvents(old(previous), previous, old(initialized), clock);
        queue.Contents() == old(queue.Contents()) + Pushes(queue.initialized, emitted, memory)
    {
      hide Starts, ThenStops, Pushes, EventQueue.Valid, EventQueue.Contents, SortOf;
      if captured == None {
        return false;
      }
      var current := SortEntries(captured.value);
      NothingPushed(queue, memory);
      var count := EmitStarts(queue, previous, current, !initialized, clock, memory, old(queue.Contents()));
      if initialized {
        EmitStops(queue, previous, current, clock, memory, count, old(queue.Contents()),
                  Starts(previous, current, false, clock, |current|));
      }
      previous := current;
      initialized := true;
      return true;
    }
  }

  /** What a poll has pushed so far: `emitted`, on top of `base`. */
  ghost predicate Holds(queue: EventQueue, base: seq<Event>, emitted: seq<Event>, memory: nat -> bool)
    reads queue, queue.Repr
  {
    queue.Valid() && queue.Contents() == base + Pushes(queue.initialized, emitted, memory)
  }

  lemma NothingPushed(queue: EventQueue, memory: nat -> bool)
    requires queue.Valid()
    ensures Holds(queue, queue.Contents(), [], memory)
  {
  }

  lemma HoldsMeans(queue: EventQueue, base: seq<Event>, emitted: seq<Event>, memory: nat -> bool)
    requires Holds(queue, base, emitted, memory)
    ensures queue.Valid() && queue.Contents() == base + Pushes(queue.initialized, emitted, memory)
  {
  }

  method PushNext(queue: EventQueue, event: Event, memory: nat -> bool, index: nat,
                  ghost base: seq<Event>, ghost emitted: seq<Event>)
    requires Holds(queue, base, emitted, memory) && index == |emitted|
    modifies queue.Repr
    ensures Holds(queue, base, emitted + [event], memory)
    ensures fresh(queue.Repr - old(queue.Repr)) && queue.initialized == old(queue.initialized)
  {
    var ok, post := queue.Push(event, memory(index));
    assert (emitted + [event])[..|emitted|] == emitted;
  }

  /** emit_start_event for the entry `at` of the snapshot. */
  method EmitStartEvent(queue: EventQueue, entries: seq<SnapshotEntry>, at: nat, baseline: bool, clock: Clock,
                        memory: nat -> bool, index: nat, ghost base: seq<Event>, ghost emitted: seq<Event>)
    requires at < |entries| && PidSorted(entries)
    requires Holds(queue, base, emitted, memory) && index == |emitted|
    modifies queue.Repr
    ensures Holds(queue, base, emitted + [StartAt(entries, at, baseline, clock)], memory)
    ensures fresh(queue.Repr - old(queue.Repr)) && queue.initialized == old(queue.initialized)
  {
    var entry := entries[at];
    var found := FindEntryByPid(entries, entry.parentPid);
    var parent := if found.Some? then Some(entries[found.value]) else None;
    PushNext(queue, StartEvent(entry, parent, baseline, TimeOf(clock, entry.key.creationTime, at)),
             memory, index, base, emitted);
  }

  /** emit_stop_event for the entry `at` of the snapshot. */
  method EmitStopEvent(queue: EventQueue, entries: seq<SnapshotEntry>, at: nat, clock: Clock,
                       memory: nat -> bool, index: nat, ghost base: seq<Event>, ghost emitted: seq<Event>)
    requires at < |entries| && PidSorted(entries)
    requires Holds(queue, base, emitted, memory) && index == |emitted|
    modifies queue.Repr
    ensures Holds(queue, base, emitted + [StopAt(entries, at, clock)], memory)
    ensures fresh(queue.Repr - old(queue.Repr)) && queue.initialized == old(queue.initialized)
  {
    var entry := entries[at];
    var found := FindEntryByPid(entries, entry.parentPid);
    var parent := if found.Some? then Some(entries[found.value]) else None;
    PushNext(queue, StopEvent(entry, parent, clock.now(at)), memory, index, base, emitted);
  }

  /** The first loop of a poll; returns how many events it pushed. */
  method EmitStarts(queue: EventQueue, previous: seq<SnapshotEntry>, current: seq<SnapshotEntry>, baseline: bool,
                    clock: Clock, memory: nat -> bool, ghost base: seq<Event>)
    returns (count: nat)
    requires Holds(queue, base, [], memory) && PidSorted(previous) && PidSorted(current)
    modifies queue.Repr
    ensures Holds(queue, base, Starts(previous, current, baseline, clock, |current|), memory)
    ensures fresh(queue.Repr - old(queue.Repr)) && queue.initialized == old(queue.initialized)
    ensures count == |Starts(previous, current, baseline, clock, |current|)|
  {
    hide Holds, StartAt, PidSorted;
    count := 0;
    for index := 0 to |current|
      invariant Holds(queue, base, Starts(previous, current, baseline, clock, index), memory)
      invariant fresh(queue.Repr - old(queue.Repr)) && queue.initialized == old(queue.initialized)
      invariant count == |Starts(previous, current, baseline, clock, index)|
    {
      var found := FindEntry(previous, current[index].key);
      if found == None {
        EmitStartEvent(queue, current, index, baseline, clock, memory, count,
                       base, Starts(previous, current, baseline, clock, index));
        count := count + 1;
      }
    }
  }

  /** The second loop of a poll, after the `pushed` pushes of its starts. */
  method EmitStops(queue: EventQueue, previous: seq<SnapshotEntry>, current: seq<SnapshotEntry>, clock: Clock,
                   memory: nat -> bool, pushed: nat, ghost base: seq<Event>, ghost starts: seq<Event>)
    requires Holds(queue, base, starts, memory) && pushed == |starts| && PidSorted(previous) && PidSorted(current)
    modifies queue.Repr
    ensures Holds(queue, base, ThenStops(starts, previous, current, clock, |previous|), memory)
    ensures fresh(queue.Repr - old(queue.Repr)) && queue.initialized == old(queue.initialized)
  {
    hide Holds, StopAt, PidSorted;
    var count := pushed;
    for index := 0 to |previous|
      invariant Holds(queue, base, ThenStops(starts, previous, current, clock, index), memory)
      invariant fresh(queue.Repr - old(queue.Repr)) && queue.initialized == old(queue.initialized)
      invariant count == |ThenStops(starts, previous, current, clock, index)|
    {
      var found := FindEntry(current, previous[index].key);
      if found == None {
        EmitStopEvent(queue, previous, index, clock, memory, count,
                      base, ThenStops(starts, previous, current, clock, index));
        count := count + 1;
      }
    }
  }

  /** The end of capture_processes: qsort by PID, then creation time. */
  method SortEntries(captured: seq<SnapshotEntry>) returns (current: seq<SnapshotEntry>)
    ensures SortOf(CompareEntries, captured, current) && PidSorted(current)
    ensures multiset(current) == multiset(captured) && forall i, j :: 0 <= i < j < |current| ==>
      var (a, b) := (current[i].key, current[j].key);
      a.pid < b.pid || (a.pid == b.pid && a.creationTime <= b.creationTime)
  {
    current := Sort(captured, CompareEntries);
    SortedByPid(captured, current);
  }

  /** A snapshot sorted by qsort is sorted by PID. */
  lemma SortedByPid(captured: seq<SnapshotEntry>, current: seq<SnapshotEntry>)
    requires SortOf(CompareEntries, captured, current)
    ensures PidSorted(current)
    ensures multiset(current) == multiset(captured) && forall i, j :: 0 <= i < j < |current| ==>
      var (a, b) := (current[i].key, current[j].key);
      a.pid < b.pid || (a.pid == b.pid && a.creationTime <= b.creationTime)
  {
  }
}
