/** Processes whose creation time is never known, because they cannot be opened: their snapshot
    entries and events all carry time 0 (src/process_monitor.c, src/event_store.c). */
module UntimedProcesses {
  import opened WideStrings
  import opened Events
  import opened Snapshots
  import opened StoreModel
  import opened StoreInvariants
  import opened StoreHistory
  import opened Reconciliation

  ghost predicate Untimed(entries: seq<SnapshotEntry>, pid: Dword) {
    forall i :: 0 <= i < |entries| && entries[i].key.pid == pid ==> entries[i].key.creationTime == 0
  }

  ghost predicate UntimedThroughout(snapshots: seq<seq<SnapshotEntry>>, pid: Dword) {
    forall j :: 0 <= j < |snapshots| ==> Untimed(snapshots[j], pid)
  }

  /** One of the first `n` entries has this PID. */
  ghost predicate PidAmong(entries: seq<SnapshotEntry>, pid: Dword, n: nat) {
    exists i :: 0 <= i < n <= |entries| && entries[i].key.pid == pid
  }

  ghost predicate ListsPid(entries: seq<SnapshotEntry>, pid: Dword) { PidAmong(entries, pid, |entries|) }

  // ---- the last transition of a PID ----

  predicate OfPid(e: Event, kind: EventType, pid: Dword) { e.kind == kind && e.process.pid == pid }

  /** Whether the last transition of the PID was a start; `on` if there is none. */
  function Switch(on: bool, events: seq<Event>, pid: Dword): bool {
    if events == [] then on
    else
      var e := events[|events| - 1];
      if OfPid(e, ProcessStart, pid) then true
      else if OfPid(e, ProcessStop, pid) then false
      else Switch(on, events[..|events| - 1], pid)
  }

  lemma SwitchAppend(on: bool, events: seq<Event>, e: Event, pid: Dword)
    ensures Switch(on, events + [e], pid) ==
      if OfPid(e, ProcessStart, pid) then true
      else if OfPid(e, ProcessStop, pid) then false
      else Switch(on, events, pid)
  {
    assert (events + [e])[..|events|] == events;
  }

  lemma {:induction false} SwitchConcat(on: bool, a: seq<Event>, b: seq<Event>, pid: Dword)
    ensures Switch(on, a + b, pid) == Switch(Switch(on, a, pid), b, pid)
  {
    hide OfPid;
    if b == [] {
      assert a + b == a;
    } else {
      assert (a + b)[..|a + b| - 1] == a + b[..|b| - 1];
      SwitchConcat(on, a, b[..|b| - 1], pid);
    }
  }

  lemma LookupIsPid(entries: seq<SnapshotEntry>, key: ProcessKey)
    requires Untimed(entries, key.pid)
    ensures Listed(entries, key) <==> ListsPid(entries, key.pid)
  {
    if i :| 0 <= i < |entries| && entries[i].key.pid == key.pid {
      assert Matches(entries[i], key);
    }
  }

  lemma PidAmongStep(entries: seq<SnapshotEntry>, pid: Dword, n: nat)
    requires n < |entries|
    ensures PidAmong(entries, pid, n + 1) <==> PidAmong(entries, pid, n) || entries[n].key.pid == pid
  {
  }

  lemma {:induction false} StartsSwitch(on: bool, previous: seq<SnapshotEntry>, current: seq<SnapshotEntry>,
                                        baseline: bool, clock: Clock, n: nat, pid: Dword)
    requires n <= |current| && Untimed(previous, pid)
    ensures Switch(on, Starts(previous, current, baseline, clock, n), pid) ==
      (on || (!ListsPid(previous, pid) && PidAmong(current, pid, n)))
  {
    hide StartAt, Listed, PidAmong, ListsPid, Switch, Starts, Untimed;
    if n == 0 {
      NoneYet(on, previous, current, baseline, clock, pid);
    } else {
      var earlier := Starts(previous, current, baseline, clock, n - 1);
      StartsStep(previous, current, baseline, clock, n);
      StartsSwitch(on, previous, current, baseline, clock, n - 1, pid);
      PidAmongStep(current, pid, n - 1);
      StartAtKey(current, n - 1, baseline, clock, ProcessStart, current[n - 1].key);
      SwitchAppend(on, earlier, StartAt(current, n - 1, baseline, clock), pid);
      if current[n - 1].key.pid == pid {
        LookupIsPid(previous, current[n - 1].key);
      }
    }
  }

  lemma NoneYet(on: bool, previous: seq<SnapshotEntry>, current: seq<SnapshotEntry>, baseline: bool, clock: Clock,
                pid: Dword)
    ensures Starts(previous, current, baseline, clock, 0) == [] && Switch(on, [], pid) == on
    ensures forall starts :: ThenStops(starts, previous, current, clock, 0) == starts
    ensures !PidAmong(current, pid, 0) && !PidAmong(previous, pid, 0)
  {
  }

  lemma {:induction false} StopsSwitch(on: bool, starts: seq<Event>, previous: seq<SnapshotEntry>,
                                       current: seq<SnapshotEntry>, clock: Clock, n: nat, pid: Dword)
    requires n <= |previous| && Untimed(current, pid)
    ensures Switch(on, ThenStops(starts, previous, current, clock, n), pid) ==
      (Switch(on, starts, pid) && (ListsPid(current, pid) || !PidAmong(previous, pid, n)))
  {
    hide StopAt, Listed, PidAmong, ListsPid, Switch, ThenStops, Untimed;
    if n == 0 {
      NoneYet(on, previous, current, true, clock, pid);
    } else {
      var earlier := ThenStops(starts, previous, current, clock, n - 1);
      ThenStopsStep(starts, previous, current, clock, n);
      StopsSwitch(on, starts, previous, current, clock, n - 1, pid);
      PidAmongStep(previous, pid, n - 1);
      StopAtKey(previous, n - 1, clock, ProcessStop, previous[n - 1].key);
      SwitchAppend(on, earlier, StopAt(previous, n - 1, clock), pid);
      if previous[n - 1].key.pid == pid {
        LookupIsPid(current, previous[n - 1].key);
      }
    }
  }

  /** After a run of polls the last transition of the PID is a start iff the last snapshot lists it. */
  lemma {:induction false} RunSwitch(snapshots: seq<seq<SnapshotEntry>>, clocks: nat -> Clock, pid: Dword)
    requires UntimedThroughout(snapshots, pid)
    ensures Switch(false, RunEvents(snapshots, clocks), pid) <==>
      snapshots != [] && ListsPid(snapshots[|snapshots| - 1], pid)
  {
    hide Starts, ThenStops, Switch, PidAmong, Untimed;
    if snapshots == [] {
      NoneYet(false, [], [], true, clocks(0), pid);
    } else {
      var n := |snapshots| - 1;
      var (before, previous, current) := (snapshots[..n], Previous(snapshots, n), snapshots[n]);
      var on := Switch(false, RunEvents(before, clocks), pid);
      var starts := Starts(previous, current, n == 0, clocks(n), |current|);
      RunSwitch(before, clocks, pid);
      SwitchConcat(false, RunEvents(before, clocks), PollEvents(previous, current, n > 0, clocks(n)), pid);
      NoneYet(false, [], [], true, clocks(0), pid);
      NothingUntimed(pid);
      StartsSwitch(on, previous, current, n == 0, clocks(n), |current|, pid);
      if n > 0 {
        StopsSwitch(on, starts, previous, current, clocks(n), |previous|, pid);
      }
    }
  }

  lemma NothingUntimed(pid: Dword)
    ensures Untimed([], pid)
  {
  }

  // ---- the store follows the last transition ----

  /** Every process event of this PID lacks its time. */
  ghost predicate AllUntimed(events: seq<Event>, pid: Dword) {
    forall i :: 0 <= i < |events| && IsProcessEvent(events[i]) && events[i].process.pid == pid ==>
      events[i].process.creationTime == 0
  }

  ghost predicate PidActive(s: StoreState, pid: Dword) {
    exists i :: 0 <= i < |s.processes| && s.processes[i].active && s.processes[i].key.pid == pid
  }

  /** The records of the PID lack their times as well. */
  ghost predicate RecordsUntimed(s: StoreState, pid: Dword) {
    forall i :: 0 <= i < |s.processes| && s.processes[i].key.pid == pid ==> s.processes[i].key.creationTime == 0
  }

  lemma UntimedMerge(s: StoreState, x: Input, pid: Dword)
    requires pid != 0 && RecordsUntimed(s, pid) && ActiveSeparated(s.processes) && IsProcessEvent(x.event)
    requires x.event.process.pid == pid ==> x.event.process.creationTime == 0
    requires !MergeEvent(s, x.event, x.recordMemory).NoMemory?
    ensures var t := MergeEvent(s, x.event, x.recordMemory).state;
      && RecordsUntimed(t, pid)
      && (PidActive(t, pid) <==>
            if x.event.process.pid == pid then x.event.kind.ProcessStart? else PidActive(s, pid))
  {
    hide ReserveRecord;
    var (ps, t) := (s.processes, MergeEvent(s, x.event, x.recordMemory).state);
    match FindProcess(ps, x.event.process)
    case None => OtherRecords(s, t, |ps|, pid);
    case Some(i) => OtherRecords(s, t, i, pid);
  }

  /** At most the record at `i` changed or was added, and it kept its PID. */
  lemma OtherRecords(s: StoreState, t: StoreState, i: nat, pid: Dword)
    requires |s.processes| <= |t.processes|
    requires forall j :: 0 <= j < |s.processes| && j != i ==> t.processes[j] == s.processes[j]
    requires i < |s.processes| ==> t.processes[i].key.pid == s.processes[i].key.pid
    requires |t.processes| == if i < |s.processes| then |s.processes| else i + 1
    requires i <= |s.processes|
    ensures t.processes[i].key.pid != pid ==> (PidActive(t, pid) <==> PidActive(s, pid))
    ensures t.processes[i].key.pid == pid && t.processes[i].active ==> PidActive(t, pid)
  {
    if j :| 0 <= j < |s.processes| && s.processes[j].active && s.processes[j].key.pid == pid {
      assert t.processes[j].key.pid == pid;
    }
  }

  lemma UntimedStep(s: StoreState, x: Input, pid: Dword)
    requires pid != 0 && RecordsUntimed(s, pid) && Consistent(s)
    requires IsProcessEvent(x.event) && x.event.process.pid == pid ==> x.event.process.creationTime == 0
    requires !MergeEvent(s, x.event, x.recordMemory).NoMemory?
    ensures var t := AddInput(s, x).state;
      && RecordsUntimed(t, pid)
      && (PidActive(t, pid) <==>
            if IsProcessEvent(x.event) && x.event.process.pid == pid then x.event.kind.ProcessStart?
            else PidActive(s, pid))
  {
    hide MergeEvent, AddInput;
    AddMerges(s, x);
    if IsProcessEvent(x.event) {
      UntimedMerge(s, x, pid);
    }
  }

  lemma LastUntimed(inputs: seq<Input>, pid: Dword)
    requires inputs != [] && AllUntimed(EventsOf(inputs), pid)
    ensures var (before, x) := (inputs[..|inputs| - 1], inputs[|inputs| - 1]);
      && EventsOf(inputs) == EventsOf(before) + [x.event] && AllUntimed(EventsOf(before), pid)
      && (IsProcessEvent(x.event) && x.event.process.pid == pid ==> x.event.process.creationTime == 0)
  {
    var (before, x) := (inputs[..|inputs| - 1], inputs[|inputs| - 1]);
    assert EventsOf(inputs) == EventsOf(before) + [x.event];
    AppendUntimed(EventsOf(before), x.event, pid);
    assert [x.event][0] == x.event;
  }

  /** The store follows the transitions: the PID is active iff its last processed event is a start. */
  lemma {:induction false} StoreSwitch(inputs: seq<Input>, pid: Dword)
    requires pid != 0 && AllUntimed(EventsOf(inputs), pid) && AllKept(inputs)
    ensures RecordsUntimed(Run(inputs), pid)
    ensures PidActive(Run(inputs), pid) <==> Switch(false, EventsOf(inputs), pid)
  {
    if inputs == [] {
    } else {
      hide Run, AddInput, MergeEvent, Switch, PidActive, RecordsUntimed, AllUntimed, EventsOf, Consistent, AllKept;
      var (before, x) := (inputs[..|inputs| - 1], inputs[|inputs| - 1]);
      RunStep(inputs);
      KeptBefore(inputs);
      LastUntimed(inputs, pid);
      StoreSwitch(before, pid);
      RunConsistent(before);
      UntimedStep(Run(before), x, pid);
      SwitchAppend(false, EventsOf(before), x.event, pid);
    }
  }

  // ---- other events do not matter ----

  lemma {:induction false} OnlyProcessSwitch(on: bool, events: seq<Event>, pid: Dword)
    ensures Switch(on, OnlyProcessEvents(events), pid) == Switch(on, events, pid)
    ensures AllUntimed(events, pid) <==> AllUntimed(OnlyProcessEvents(events), pid)
  {
    if events == [] {
    } else {
      var (before, e) := (events[..|events| - 1], events[|events| - 1]);
      var kept := OnlyProcessEvents(before);
      OnlyProcessSwitch(on, before, pid);
      SwitchAppend(on, kept, e, pid);
      AppendUntimed(before, e, pid);
      AppendUntimed(kept, e, pid);
      assert events == before + [e];
    }
  }

  lemma AppendUntimed(events: seq<Event>, e: Event, pid: Dword)
    ensures AllUntimed(events + [e], pid) <==> AllUntimed(events, pid) && AllUntimed([e], pid)
  {
    var all := events + [e];
    assert all[|events|] == e && [e][0] == e;
    assert forall i :: 0 <= i < |events| ==> all[i] == events[i];
  }

  lemma {:induction false} StartsUntimed(previous: seq<SnapshotEntry>, current: seq<SnapshotEntry>, baseline: bool,
                                         clock: Clock, n: nat, pid: Dword)
    requires n <= |current| && Untimed(current, pid)
    ensures AllUntimed(Starts(previous, current, baseline, clock, n), pid)
  {
    hide Listed, StartAt;
    if n == 0 {
    } else {
      StartsUntimed(previous, current, baseline, clock, n - 1, pid);
      StartAtKey(current, n - 1, baseline, clock, ProcessStart, current[n - 1].key);
    }
  }

  lemma {:induction false} StopsUntimed(starts: seq<Event>, previous: seq<SnapshotEntry>, current: seq<SnapshotEntry>,
                                        clock: Clock, n: nat, pid: Dword)
    requires n <= |previous| && Untimed(previous, pid) && AllUntimed(starts, pid)
    ensures AllUntimed(ThenStops(starts, previous, current, clock, n), pid)
  {
    hide Listed, StopAt;
    if n == 0 {
    } else {
      StopsUntimed(starts, previous, current, clock, n - 1, pid);
      StopAtKey(previous, n - 1, clock, ProcessStop, previous[n - 1].key);
    }
  }

  lemma {:induction false} RunUntimed(snapshots: seq<seq<SnapshotEntry>>, clocks: nat -> Clock, pid: Dword)
    requires UntimedThroughout(snapshots, pid)
    ensures AllUntimed(RunEvents(snapshots, clocks), pid)
  {
    hide Starts, ThenStops, IsProcessEvent;
    if snapshots == [] {
    } else {
      var n := |snapshots| - 1;
      var previous := Previous(snapshots, n);
      var starts := Starts(previous, snapshots[n], n == 0, clocks(n), |snapshots[n]|);
      RunUntimed(snapshots[..n], clocks, pid);
      StartsUntimed(previous, snapshots[n], n == 0, clocks(n), |snapshots[n]|, pid);
      StopsUntimed(starts, previous, snapshots[n], clocks(n), |previous|, pid);
    }
  }

  /** A PID whose entries never carry a time is active in the store after a run of polls iff the last
      snapshot lists it - also when it vanished and came back. */
  lemma UntimedMirrors(inputs: seq<Input>, snapshots: seq<seq<SnapshotEntry>>, clocks: nat -> Clock, pid: Dword)
    requires pid != 0 && snapshots != [] && UntimedThroughout(snapshots, pid)
    requires Fed(inputs, snapshots, clocks)
    ensures PidActive(Run(inputs), pid) <==> ListsPid(snapshots[|snapshots| - 1], pid)
  {
    hide Run, AllKept, PidActive, RunEvents, Switch, AllUntimed, OnlyProcessEvents, EventsOf, PidAmong;
    RunUntimed(snapshots, clocks, pid);
    RunSwitch(snapshots, clocks, pid);
    OnlyProcessSwitch(false, EventsOf(inputs), pid);
    StoreSwitch(inputs, pid);
  }
}
