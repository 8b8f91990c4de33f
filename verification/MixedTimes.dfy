/** Fallback mode for a PID whose entries carry a creation time in some snapshots and none in others, as
    they do when OpenProcess fails once (src/process_monitor.c): when the store follows them. */
module MixedTimes {
  import opened WideStrings
  import opened Events
  import opened Snapshots
  import opened StoreModel
  import opened StoreHistory
  import opened Reconciliation
  import opened UntimedProcesses
  import opened PolledRuns
  import opened ProcessSlots
  import SourceOrder

  ghost predicate AtMostOnce(entries: seq<SnapshotEntry>, pid: Dword) {
    forall i, j :: 0 <= i < j < |entries| ==> !(entries[i].key.pid == pid && entries[j].key.pid == pid)
  }

  ghost predicate OnceThroughout(snapshots: seq<seq<SnapshotEntry>>, pid: Dword) {
    forall j :: 0 <= j < |snapshots| ==> AtMostOnce(snapshots[j], pid)
  }

  /** The time of the PID among the first `n` entries. */
  function SightAmong(entries: seq<SnapshotEntry>, pid: Dword, n: nat): (r: Option<Qword>)
    requires n <= |entries|
    ensures r.Some? <==> PidAmong(entries, pid, n)
  {
    if n == 0 then None
    else if entries[n - 1].key.pid == pid then Some(entries[n - 1].key.creationTime)
    else SightAmong(entries, pid, n - 1)
  }

  function Sight(entries: seq<SnapshotEntry>, pid: Dword): Option<Qword> { SightAmong(entries, pid, |entries|) }

  /** Times that the poll takes for the same process. */
  predicate Near(a: Qword, b: Qword) { a == b || a == 0 || b == 0 }

  predicate Continues(seen: Option<Qword>, time: Qword) { seen.Some? && Near(seen.value, time) }

  // ---- one poll moves the slot ----

  lemma {:induction false} SightIs(entries: seq<SnapshotEntry>, pid: Dword, n: nat, i: nat)
    requires AtMostOnce(entries, pid) && i < n <= |entries| && entries[i].key.pid == pid
    ensures SightAmong(entries, pid, n) == Some(entries[i].key.creationTime)
  {
    if n == i + 1 {
    } else {
      SightIs(entries, pid, n - 1, i);
    }
  }

  lemma ListedIsContinued(entries: seq<SnapshotEntry>, key: ProcessKey)
    requires AtMostOnce(entries, key.pid)
    ensures Listed(entries, key) <==> Continues(Sight(entries, key.pid), key.creationTime)
  {
    var found := FirstMatch(entries, key);
    if found.Some? {
      SightIs(entries, key.pid, |entries|, found.value);
    } else if Sight(entries, key.pid).Some? {
      var i :| 0 <= i < |entries| && entries[i].key.pid == key.pid;
      SightIs(entries, key.pid, |entries|, i);
      assert !Matches(entries[i], key);
    }
  }

  lemma FirstSight(entries: seq<SnapshotEntry>, pid: Dword, n: nat)
    requires n < |entries| && AtMostOnce(entries, pid) && entries[n].key.pid == pid
    ensures SightAmong(entries, pid, n) == None
  {
  }

  lemma ReachesOne(a: Slot, e: Event, pid: Dword, b: Slot)
    requires Reaches(a, [e], pid, b)
    ensures Moves(a, e, pid, b)
  {
  }

  /** The starts of a poll start the PID if it is seen and not a continuation. */
  lemma {:induction false} StartsReach(a: Slot, previous: seq<SnapshotEntry>, current: seq<SnapshotEntry>,
                                       baseline: bool, clock: Clock, n: nat, pid: Dword, b: Slot)
    requires n <= |current| && AtMostOnce(previous, pid) && AtMostOnce(current, pid)
    requires Reaches(a, Starts(previous, current, baseline, clock, n), pid, b)
    ensures b == match SightAmong(current, pid, n)
      case None => a
      case Some(time) => if Continues(Sight(previous, pid), time) then a else Started(a, time)
    decreases n
  {
    hide StartAt, Listed, AtMostOnce, Reaches, Starts, Started;
    if n == 0 {
      NothingReached(a, previous, current, baseline, clock, pid, b);
    } else {
      StartsStep(previous, current, baseline, clock, n);
      var m := b;
      if !Listed(previous, current[n - 1].key) {
        var e := StartAt(current, n - 1, baseline, clock);
        m := ReachesConcat(a, Starts(previous, current, baseline, clock, n - 1), [e], pid, b);
        ReachesOne(m, e, pid, b);
        StartAtKey(current, n - 1, baseline, clock, ProcessStart, current[n - 1].key);
      }
      StartsReach(a, previous, current, baseline, clock, n - 1, pid, m);
      if current[n - 1].key.pid == pid {
        FirstSight(current, pid, n - 1);
        ListedIsContinued(previous, current[n - 1].key);
      }
    }
  }

  lemma NothingReached(a: Slot, previous: seq<SnapshotEntry>, current: seq<SnapshotEntry>, baseline: bool,
                       clock: Clock, pid: Dword, b: Slot)
    requires Reaches(a, Starts(previous, current, baseline, clock, 0), pid, b)
    ensures a == b
  {
  }

  /** The stops of a poll stop it if it was seen and does not continue. */
  lemma {:induction false} StopsReach(a: Slot, starts: seq<Event>, previous: seq<SnapshotEntry>,
                                      current: seq<SnapshotEntry>, clock: Clock, n: nat, pid: Dword, b: Slot)
    returns (m: Slot)
    requires n <= |previous| && AtMostOnce(previous, pid) && AtMostOnce(current, pid)
    requires Reaches(a, ThenStops(starts, previous, current, clock, n), pid, b)
    ensures Reaches(a, starts, pid, m)
    ensures match SightAmong(previous, pid, n)
      case None => b == m
      case Some(time) => if Continues(Sight(current, pid), time) then b == m else StopsTo(m, time, b)
    decreases n
  {
    hide StopAt, Listed, AtMostOnce, Reaches, StopsTo, ThenStops;
    if n == 0 {
      NoStopsYet(starts, previous, current, clock);
      m := b;
    } else {
      ThenStopsStep(starts, previous, current, clock, n);
      var last := b;
      if !Listed(current, previous[n - 1].key) {
        var e := StopAt(previous, n - 1, clock);
        last := ReachesConcat(a, ThenStops(starts, previous, current, clock, n - 1), [e], pid, b);
        ReachesOne(last, e, pid, b);
        StopAtKey(previous, n - 1, clock, ProcessStop, previous[n - 1].key);
      }
      m := StopsReach(a, starts, previous, current, clock, n - 1, pid, last);
      if previous[n - 1].key.pid == pid {
        FirstSight(previous, pid, n - 1);
        ListedIsContinued(current, previous[n - 1].key);
      }
    }
  }

  lemma NoStopsYet(starts: seq<Event>, previous: seq<SnapshotEntry>, current: seq<SnapshotEntry>, clock: Clock)
    ensures ThenStops(starts, previous, current, clock, 0) == starts
  {
  }

  /** What one poll does to the slot, by what it saw of the PID before and now. */
  ghost predicate Polled(a: Slot, before: Option<Qword>, now: Option<Qword>, b: Slot) {
    var started := if now.Some? && !Continues(before, now.value) then Started(a, now.value) else a;
    if before.Some? && !Continues(now, before.value) then StopsTo(started, before.value, b) else b == started
  }

  lemma PollReaches(a: Slot, previous: seq<SnapshotEntry>, current: seq<SnapshotEntry>, initialized: bool,
                    clock: Clock, pid: Dword, b: Slot)
    requires AtMostOnce(previous, pid) && AtMostOnce(current, pid) && (initialized || previous == [])
    requires Reaches(a, PollEvents(previous, current, initialized, clock), pid, b)
    ensures Polled(a, Sight(previous, pid), Sight(current, pid), b)
  {
    hide Starts, ThenStops, Reaches, AtMostOnce, Started, StopsTo;
    var starts := Starts(previous, current, !initialized, clock, |current|);
    var m := b;
    if initialized {
      m := StopsReach(a, starts, previous, current, clock, |previous|, pid, b);
    }
    StartsReach(a, previous, current, !initialized, clock, |current|, pid, m);
  }

  function SightBefore(snapshots: seq<seq<SnapshotEntry>>, pid: Dword): Option<Qword>
    requires snapshots != []
  {
    Sight(Previous(snapshots, |snapshots| - 1), pid)
  }

  /** The last poll of a run. */
  lemma LastPoll(snapshots: seq<seq<SnapshotEntry>>, clocks: nat -> Clock, pid: Dword, b: Slot) returns (m: Slot)
    requires snapshots != [] && OnceThroughout(snapshots, pid)
    requires Reaches(EMPTY_SLOT, RunEvents(snapshots, clocks), pid, b)
    ensures Reaches(EMPTY_SLOT, RunEvents(snapshots[..|snapshots| - 1], clocks), pid, m)
    ensures Polled(m, SightBefore(snapshots, pid), Sight(snapshots[|snapshots| - 1], pid), b)
  {
    hide PollEvents, Reaches, Polled, AtMostOnce, SightAmong;
    var n := |snapshots| - 1;
    var polled := PollEvents(Previous(snapshots, n), snapshots[n], n > 0, clocks(n));
    m := ReachesConcat(EMPTY_SLOT, RunEvents(snapshots[..n], clocks), polled, pid, b);
    NothingOnce(pid);
    PollReaches(m, Previous(snapshots, n), snapshots[n], n > 0, clocks(n), pid, b);
  }

  lemma NothingOnce(pid: Dword)
    ensures AtMostOnce([], pid)
  {
  }

  // ---- stretches of polls ----

  /** A stretch is a run of polls that see the PID and emit nothing for it: the first and last times it was
      seen with.  `used`: the known times at the ends of earlier stretches. */
  datatype Watch = Away(used: set<Qword>) | Present(first: Qword, last: Qword, used: set<Qword>)

  /** One more snapshot.  A stretch that gives way to another process leaves its ends behind, except that
      an untimed record outlives it if both the new time and the last one are used up. */
  function Look(w: Watch, seen: Option<Qword>): Watch {
    match (w, seen)
    case (Away(used), None) => w
    case (Away(used), Some(time)) => Present(time, time, used)
    case (Present(first, last, used), None) => Away(used + Known(first) + Known(last))
    case (Present(first, last, used), Some(time)) =>
      if Near(last, time) then Present(first, time, used)
      else if Outlives(w, time) then Present(0, time, used)
      else Present(time, time, used + Known(first) + Known(last))
  }

  predicate Outlives(w: Watch, time: Qword)
    requires w.Present?
  {
    w.first == 0 && w.last in w.used && time in w.used
  }

  /** A stretch begins with a fresh time or none, and ends on the time it began with, on none, or, if it
      began without one, on a fresh time.  One that began without a time may give way to another process
      whatever its last time, if the new time is fresh. */
  predicate CleanStep(w: Watch, seen: Option<Qword>) {
    match (w, seen)
    case (Away(used), Some(time)) => time !in used
    case (Away(used), None) => true
    case (Present(first, last, used), None) => last == 0 || last == first || (first == 0 && last !in used)
    case (Present(first, last, used), Some(time)) =>
      Near(last, time) || Outlives(w, time) || ((first == 0 || last == first) && time !in used)
  }

  function Watched(snapshots: seq<seq<SnapshotEntry>>, pid: Dword): Watch {
    if snapshots == [] then Away({})
    else Look(Watched(snapshots[..|snapshots| - 1], pid), Sight(snapshots[|snapshots| - 1], pid))
  }

  predicate Clean(snapshots: seq<seq<SnapshotEntry>>, pid: Dword) {
    if snapshots == [] then true
    else
      var n := |snapshots| - 1;
      Clean(snapshots[..n], pid) && CleanStep(Watched(snapshots[..n], pid), Sight(snapshots[n], pid))
  }

  /** What a clean stretch leaves in the slot. */
  ghost predicate Tracks(w: Watch, slot: Slot) {
    0 !in w.used &&
    match w
    case Away(used) => slot == Slot(used, {})
    case Present(first, last, used) => first !in used && slot == Slot(used + Known(first), {first})
  }

  function LastSeen(w: Watch): Option<Qword> { if w.Present? then Some(w.last) else None }

  lemma CleanTracks(w: Watch, a: Slot, seen: Option<Qword>, b: Slot)
    requires Tracks(w, a) && Polled(a, LastSeen(w), seen, b) && CleanStep(w, seen)
    ensures Tracks(Look(w, seen), b)
  {
  }

  lemma WatchedLast(snapshots: seq<seq<SnapshotEntry>>, pid: Dword)
    requires snapshots != []
    ensures LastSeen(Watched(snapshots[..|snapshots| - 1], pid)) == SightBefore(snapshots, pid)
    ensures LastSeen(Watched(snapshots, pid)) == Sight(snapshots[|snapshots| - 1], pid)
  {
  }

  /** After clean polls the slot of the PID is what the last stretch says. */
  lemma {:induction false} CleanRun(snapshots: seq<seq<SnapshotEntry>>, clocks: nat -> Clock, pid: Dword, b: Slot)
    requires OnceThroughout(snapshots, pid) && Clean(snapshots, pid)
    requires Reaches(EMPTY_SLOT, RunEvents(snapshots, clocks), pid, b)
    ensures Tracks(Watched(snapshots, pid), b)
    decreases |snapshots|
  {
    if snapshots == [] {
    } else {
      hide Reaches, RunEvents, Tracks, Polled, AtMostOnce, SightAmong, CleanStep, Look;
      var n := |snapshots| - 1;
      var m := LastPoll(snapshots, clocks, pid, b);
      WatchedLast(snapshots, pid);
      CleanRun(snapshots[..n], clocks, pid, m);
      CleanTracks(Watched(snapshots[..n], pid), m, Sight(snapshots[n], pid), b);
    }
  }

  // ---- from the slot to the store ----

  lemma {:induction false} OnlyProcessReaches(a: Slot, events: seq<Event>, pid: Dword, b: Slot)
    requires Reaches(a, events, pid, b)
    ensures Reaches(a, OnlyProcessEvents(events), pid, b)
    decreases |events|
  {
    hide Reaches, IsProcessEvent;
    if events == [] {
    } else {
      var (before, e) := (events[..|events| - 1], events[|events| - 1]);
      assert events == before + [e];
      var m := ReachesConcat(a, before, [e], pid, b);
      ReachesOne(m, e, pid, b);
      OnlyProcessReaches(a, before, pid, m);
      if IsProcessEvent(e) {
        ReachesAppend(a, OnlyProcessEvents(before), e, pid, m, b);
      }
    }
  }

  lemma FedReaches(inputs: seq<Input>, snapshots: seq<seq<SnapshotEntry>>, clocks: nat -> Clock, pid: Dword)
    requires pid != 0 && Fed(inputs, snapshots, clocks)
    ensures Reaches(EMPTY_SLOT, RunEvents(snapshots, clocks), pid, SlotOf(Run(inputs), pid))
  {
    hide Reaches, AllKept, Run, RunEvents, SlotOf, OnlyProcessEvents;
    WholeRunReaches(inputs, pid);
    OnlyProcessReaches(EMPTY_SLOT, EventsOf(inputs), pid, SlotOf(Run(inputs), pid));
  }

  lemma ActiveSlot(s: StoreState, pid: Dword)
    ensures PidActive(s, pid) <==> SlotOf(s, pid).running != {}
  {
    var ps := s.processes;
    if i :| 0 <= i < |ps| && ps[i].active && ps[i].key.pid == pid {
      assert ps[i].key.creationTime in SlotOf(s, pid).running;
    }
    if time :| time in SlotOf(s, pid).running {
      assert PidActive(s, pid);
    }
  }

  /** A PID that every snapshot lists at most once, with a time or without: after clean polls it is active
      in the store iff the last snapshot lists it. */
  lemma MixedMirrors(inputs: seq<Input>, snapshots: seq<seq<SnapshotEntry>>, clocks: nat -> Clock, pid: Dword)
    requires pid != 0 && snapshots != [] && OnceThroughout(snapshots, pid) && Clean(snapshots, pid)
    requires Fed(inputs, snapshots, clocks)
    ensures PidActive(Run(inputs), pid) <==> ListsPid(snapshots[|snapshots| - 1], pid)
  {
    hide Fed, Run, RunEvents, SlotOf, Reaches, PidActive, PidAmong, Watched, Clean;
    FedReaches(inputs, snapshots, clocks, pid);
    CleanRun(snapshots, clocks, pid, SlotOf(Run(inputs), pid));
    WatchedLast(snapshots, pid);
    ActiveSlot(Run(inputs), pid);
  }

  // ---- exactly when the store shows the entry at every poll ----

  /** The store has exactly one active record of the PID, and its time agrees with the entry; or none, and
      the PID is not listed. */
  ghost predicate Agrees(slot: Slot, seen: Option<Qword>) {
    match seen
    case None => slot.running == {}
    case Some(time) => exists r :: slot.running == {r} && Near(r, time)
  }

  ghost predicate ShowsEntry(s: StoreState, entries: seq<SnapshotEntry>, pid: Dword) {
    Agrees(SlotOf(s, pid), Sight(entries, pid))
  }

  /** Besides, within a stretch every time agrees with the first. */
  predicate SteadyStep(w: Watch, seen: Option<Qword>) {
    CleanStep(w, seen) && (w.Present? && seen.Some? && Near(w.last, seen.value) ==> Near(w.first, seen.value))
  }

  predicate Steady(snapshots: seq<seq<SnapshotEntry>>, pid: Dword) {
    if snapshots == [] then true
    else
      var n := |snapshots| - 1;
      Steady(snapshots[..n], pid) && SteadyStep(Watched(snapshots[..n], pid), Sight(snapshots[n], pid))
  }

  lemma SteadyAgrees(w: Watch, a: Slot, seen: Option<Qword>, b: Slot)
    requires Tracks(w, a) && Polled(a, LastSeen(w), seen, b) && (w.Present? ==> Near(w.first, w.last))
    ensures Agrees(b, seen) <==> SteadyStep(w, seen)
    ensures SteadyStep(w, seen) ==> var t := Look(w, seen); Tracks(t, b) && (t.Present? ==> Near(t.first, t.last))
  {
  }

  ghost predicate FirstAgrees(w: Watch) { w.Present? ==> Near(w.first, w.last) }

  /** After a steady run of polls the next poll leaves the store in agreement iff it is steady too. */
  lemma {:induction false} SteadyRun(snapshots: seq<seq<SnapshotEntry>>, clocks: nat -> Clock, pid: Dword, b: Slot)
    requires OnceThroughout(snapshots, pid) && Reaches(EMPTY_SLOT, RunEvents(snapshots, clocks), pid, b)
    requires snapshots == [] || Steady(snapshots[..|snapshots| - 1], pid)
    ensures Steady(snapshots, pid) ==> Tracks(Watched(snapshots, pid), b) && FirstAgrees(Watched(snapshots, pid))
    ensures snapshots != [] ==> (Agrees(b, Sight(snapshots[|snapshots| - 1], pid)) <==> Steady(snapshots, pid))
    decreases |snapshots|
  {
    if snapshots == [] {
    } else {
      hide Reaches, RunEvents, Tracks, Polled, AtMostOnce, SightAmong, SteadyStep, Look, Agrees;
      var n := |snapshots| - 1;
      var m := LastPoll(snapshots, clocks, pid, b);
      WatchedLast(snapshots, pid);
      SteadyRun(snapshots[..n], clocks, pid, m);
      SteadyAgrees(Watched(snapshots[..n], pid), m, Sight(snapshots[n], pid), b);
    }
  }

  /** `runs[n]`: the calls the store has seen when it has settled after poll `n`. */
  ghost predicate FedEach(runs: seq<seq<Input>>, snapshots: seq<seq<SnapshotEntry>>, clocks: nat -> Clock) {
    |runs| == |snapshots| && forall n :: 0 <= n < |runs| ==> Fed(runs[n], snapshots[..n + 1], clocks)
  }

  ghost predicate ShownEach(runs: seq<seq<Input>>, snapshots: seq<seq<SnapshotEntry>>, pid: Dword)
    requires |runs| == |snapshots|
  {
    forall n :: 0 <= n < |runs| ==> ShowsEntry(Run(runs[n]), snapshots[n], pid)
  }

  lemma LastFed(runs: seq<seq<Input>>, snapshots: seq<seq<SnapshotEntry>>, clocks: nat -> Clock, pid: Dword)
    requires snapshots != [] && FedEach(runs, snapshots, clocks)
    ensures var n := |snapshots| - 1;
      && FedEach(runs[..n], snapshots[..n], clocks) && Fed(runs[n], snapshots, clocks)
      && (ShownEach(runs, snapshots, pid) <==>
            ShownEach(runs[..n], snapshots[..n], pid) && ShowsEntry(Run(runs[n]), snapshots[n], pid))
  {
    hide Fed, ShowsEntry, Run;
    var n := |snapshots| - 1;
    assert snapshots[..n + 1] == snapshots;
    forall i | 0 <= i < n ensures Fed(runs[..n][i], snapshots[..n][..i + 1], clocks) {
      assert snapshots[..n][..i + 1] == snapshots[..i + 1];
    }
  }

  lemma SteadyBefore(snapshots: seq<seq<SnapshotEntry>>, pid: Dword)
    requires snapshots != [] && Steady(snapshots, pid)
    ensures Steady(snapshots[..|snapshots| - 1], pid)
  {
  }

  lemma NothingShown(snapshots: seq<seq<SnapshotEntry>>, pid: Dword)
    requires snapshots == []
    ensures Steady(snapshots, pid)
  {
  }

  /** After every poll of a run the store shows the entry of the PID, iff the snapshots are steady. */
  lemma {:induction false} ShownThroughoutIff(runs: seq<seq<Input>>, snapshots: seq<seq<SnapshotEntry>>,
                                              clocks: nat -> Clock, pid: Dword)
    requires pid != 0 && OnceThroughout(snapshots, pid) && FedEach(runs, snapshots, clocks)
    ensures ShownEach(runs, snapshots, pid) <==> Steady(snapshots, pid)
    decreases |snapshots|
  {
    if snapshots == [] {
      NothingShown(snapshots, pid);
    } else {
      hide Reaches, RunEvents, AtMostOnce, SightAmong, Steady, Agrees, Fed, Run, SlotOf, Watched, FedEach, ShownEach;
      var n := |snapshots| - 1;
      LastFed(runs, snapshots, clocks, pid);
      ShownThroughoutIff(runs[..n], snapshots[..n], clocks, pid);
      FedReaches(runs[n], snapshots, clocks, pid);
      if Steady(snapshots[..n], pid) {
        SteadyRun(snapshots, clocks, pid, SlotOf(Run(runs[n]), pid));
      } else if Steady(snapshots, pid) {
        SteadyBefore(snapshots, pid);
      }
    }
  }

  // ---- an instance ----

  const FIRST_SIGHT := SnapshotEntry(ProcessKey(8, 5), 0, [], [])
  const NO_TIME_SIGHT := SnapshotEntry(ProcessKey(8, 0), 0, [], [])
  const NEW_SIGHT := SnapshotEntry(ProcessKey(8, 6), 0, [], [])
  const REPLACED := [[FIRST_SIGHT], [NO_TIME_SIGHT], [NEW_SIGHT], []]

  /** A process is replaced by another of its PID while one snapshot fails to read the time: the polls see
      one stretch, stop the new process, and the old one stays active with nothing left to list. */
  lemma ReplacedStaysActive(inputs: seq<Input>, clocks: nat -> Clock)
    requires Fed(inputs, REPLACED, clocks)
    ensures FIRST_SIGHT.key in ActiveKeys(Run(inputs)) && PidActive(Run(inputs), 8) && !ListsPid(REPLACED[3], 8)
    ensures forall k: ProcessKey | k.pid == 8 :: !InLast(REPLACED, k)
  {
    hide Run, Fed, RunEvents, SlotOf, Reaches, PidActive, ActiveKeys;
    FedReaches(inputs, REPLACED, clocks, 8);
    var slot := SlotOf(Run(inputs), 8);
    var m := LastPoll(REPLACED, clocks, 8, slot);
    ReplacedWatched();
    CleanRun(REPLACED[..3], clocks, 8, m);
    assert slot.running == {5};
    RunningSlot(Run(inputs), FIRST_SIGHT.key);
    ActiveSlot(Run(inputs), 8);
  }

  lemma ReplacedWatched()
    ensures OnceThroughout(REPLACED, 8) && Clean(REPLACED[..3], 8) && !Clean(REPLACED, 8)
    ensures Watched(REPLACED[..3], 8) == Present(5, 6, {})
    ensures SightBefore(REPLACED, 8) == Some(6) && Sight(REPLACED[3], 8) == None
  {
    assert REPLACED[..3][..2] == REPLACED[..2] && REPLACED[..2][..1] == REPLACED[..1] && REPLACED[..1][..0] == [];
    assert Sight(REPLACED[0], 8) == Some(5) && Sight(REPLACED[1], 8) == Some(0) && Sight(REPLACED[2], 8) == Some(6);
    assert Watched(REPLACED[..1], 8) == Present(5, 5, {}) && Clean(REPLACED[..1], 8);
    assert Watched(REPLACED[..2], 8) == Present(5, 0, {}) && Clean(REPLACED[..2], 8);
  }

  /** Such calls exist. */
  lemma ReplacedCanBeFed(clocks: nat -> Clock)
    ensures Fed(SourceOrder.Inputs(RunEvents(REPLACED, clocks)), REPLACED, clocks)
  {
    hide Fed;
    CanBeFed(REPLACED, clocks);
  }
}
