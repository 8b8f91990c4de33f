/** What the events of a poll say (src/process_monitor.c), told from the entries of the snapshots: one start
    per appeared entry and one stop per vanished one, and what each reports of its process and parent. */
module EmittedEvents {
  import opened WideStrings
  import opened Formatting
  import opened Events
  import opened Snapshots
  import opened Reconciliation

  // ---- one event ----

  /** The first entry of the PID. */
  ghost predicate First(entries: seq<SnapshotEntry>, pid: Dword, j: int) {
    0 <= j < |entries| && entries[j].key.pid == pid && forall i :: 0 <= i < j ==> entries[i].key.pid != pid
  }

  /** The event reports this entry and nothing else: its key, name and path, and as its parent the first
      entry of the parent PID, unless that process is known to be younger. */
  ghost predicate Reports(e: Event, entries: seq<SnapshotEntry>, at: nat)
    requires at < |entries|
  {
    var entry := entries[at];
    var pid := entry.parentPid;
    && e == NO_EVENT.(kind := e.kind, process := entry.key, parent := e.parent, parentName := e.parentName,
                      timestamp := e.timestamp, details := e.details,
                      processName := Truncated(entry.name, MAX_PATH), executablePath := Truncated(entry.path, MAX_PATH))
    && (forall j :: First(entries, pid, j) ==>
          var p := entries[j];
          if 0 < entry.key.creationTime < p.key.creationTime then e.parent == ProcessKey(pid, 0) && e.parentName == []
          else e.parent == p.key && e.parentName == Truncated(p.name, MAX_PATH))
    && ((forall j :: 0 <= j < |entries| ==> entries[j].key.pid != pid) ==>
          e.parent == ProcessKey(pid, 0) && e.parentName == [])
  }

  /** The start event of an entry; `baseline` on the first poll. */
  ghost predicate IsStart(e: Event, entries: seq<SnapshotEntry>, at: nat, baseline: bool, clock: Clock)
    requires at < |entries|
  {
    var time := entries[at].key.creationTime;
    && Reports(e, entries, at) && e.kind == ProcessStart
    && (time != 0 && clock.convert(time).Some? ==> e.timestamp == clock.convert(time).value)
    && (time == 0 || clock.convert(time).None? ==> e.timestamp == clock.now(at))
    && e.details == Truncated(
         (if baseline then W("Discovered at startup; parent ") else W("Started; parent ")) +
         (if e.parentName == [] then W("<unknown>") else e.parentName) +
         W(" (PID ") + Decimal(entries[at].parentPid) + W("); path ") +
         (if e.executablePath == [] then W("<access denied or unavailable>") else e.executablePath), DETAIL_LENGTH)
  }

  ghost predicate IsStop(e: Event, entries: seq<SnapshotEntry>, at: nat, clock: Clock)
    requires at < |entries|
  {
    && Reports(e, entries, at) && e.kind == ProcessStop && e.timestamp == clock.now(at)
    && e.details == Truncated(W("Process stopped (PID ") + Decimal(entries[at].key.pid) + W(")"), DETAIL_LENGTH)
  }

  /** No event reports a parent known to be younger than its process. */
  lemma NoYoungerParent(e: Event, entries: seq<SnapshotEntry>, at: nat)
    requires at < |entries| && Reports(e, entries, at)
    ensures !(0 < e.process.creationTime < e.parent.creationTime) && e.parent.pid == entries[at].parentPid
  {
    var j := FirstOfPid(entries, entries[at].parentPid);
    assert j.Some? ==> First(entries, entries[at].parentPid, j.value);
  }

  lemma FirstIs(entries: seq<SnapshotEntry>, pid: Dword)
    ensures match FirstOfPid(entries, pid)
      case None => forall j :: 0 <= j < |entries| ==> entries[j].key.pid != pid
      case Some(i) => forall j :: First(entries, pid, j) <==> j == i
  {
  }

  lemma StartReports(entries: seq<SnapshotEntry>, at: nat, baseline: bool, clock: Clock)
    requires at < |entries|
    ensures IsStart(StartAt(entries, at, baseline, clock), entries, at, baseline, clock)
  {
    hide W, Decimal, Truncated;
    FirstIs(entries, entries[at].parentPid);
  }

  lemma StopReports(entries: seq<SnapshotEntry>, at: nat, clock: Clock)
    requires at < |entries|
    ensures IsStop(StopAt(entries, at, clock), entries, at, clock)
  {
    hide W, Decimal, Truncated;
    FirstIs(entries, entries[at].parentPid);
  }

  // ---- one poll ----

  /** No entry is of this process: none of its PID has the same time, or is without one, or matches a key
      without one. */
  ghost predicate Missing(entries: seq<SnapshotEntry>, key: ProcessKey) {
    forall j :: 0 <= j < |entries| && entries[j].key.pid == key.pid ==>
      entries[j].key.creationTime != key.creationTime && entries[j].key.creationTime != 0 && key.creationTime != 0
  }

  /** The first `n` entries that are missing in the other snapshot, in order. */
  ghost function Unmatched(entries: seq<SnapshotEntry>, other: seq<SnapshotEntry>, n: nat): seq<nat>
    requires n <= |entries|
  {
    if n == 0 then []
    else if Missing(other, entries[n - 1].key) then Unmatched(entries, other, n - 1) + [n - 1]
    else Unmatched(entries, other, n - 1)
  }

  /** These are exactly the missing ones, each once. */
  lemma {:induction false} UnmatchedAre(entries: seq<SnapshotEntry>, other: seq<SnapshotEntry>, n: nat)
    requires n <= |entries|
    ensures var r := Unmatched(entries, other, n);
      && (forall i :: i in r <==> 0 <= i < n && Missing(other, entries[i].key))
      && (forall k, l :: 0 <= k < l < |r| ==> r[k] < r[l])
  {
    hide Missing;
    if n == 0 {
    } else {
      UnmatchedAre(entries, other, n - 1);
      var earlier := Unmatched(entries, other, n - 1);
      forall k | 0 <= k < |earlier| ensures earlier[k] < n - 1 {
        assert earlier[k] in earlier;
      }
    }
  }

  lemma MissingIsUnlisted(entries: seq<SnapshotEntry>, key: ProcessKey)
    ensures Missing(entries, key) <==> !Listed(entries, key)
  {
    if !Listed(entries, key) {
      assert forall i :: 0 <= i < |entries| ==> !Matches(entries[i], key);
    }
  }

  /** The events are starts of these entries, one for one. */
  ghost predicate AreStarts(events: seq<Event>, entries: seq<SnapshotEntry>, ats: seq<nat>, baseline: bool,
                            clock: Clock)
  {
    |events| == |ats| &&
    forall k :: 0 <= k < |ats| ==> ats[k] < |entries| && IsStart(events[k], entries, ats[k], baseline, clock)
  }

  ghost predicate AreStops(events: seq<Event>, entries: seq<SnapshotEntry>, ats: seq<nat>, clock: Clock) {
    |events| == |ats| &&
    forall k :: 0 <= k < |ats| ==> ats[k] < |entries| && IsStop(events[k], entries, ats[k], clock)
  }

  lemma OneMore(entries: seq<SnapshotEntry>, other: seq<SnapshotEntry>, n: nat)
    requires 0 < n <= |entries|
    ensures var fewer := Unmatched(entries, other, n - 1);
      Unmatched(entries, other, n) == if Listed(other, entries[n - 1].key) then fewer else fewer + [n - 1]
  {
    hide Listed, Missing;
    MissingIsUnlisted(other, entries[n - 1].key);
  }

  lemma OneMoreStart(events: seq<Event>, entries: seq<SnapshotEntry>, ats: seq<nat>, baseline: bool, clock: Clock,
                     n: nat)
    requires AreStarts(events, entries, ats, baseline, clock) && n < |entries|
    ensures AreStarts(events + [StartAt(entries, n, baseline, clock)], entries, ats + [n], baseline, clock)
  {
    hide StartAt, IsStart;
    StartReports(entries, n, baseline, clock);
  }

  lemma OneMoreStop(events: seq<Event>, entries: seq<SnapshotEntry>, ats: seq<nat>, clock: Clock, n: nat)
    requires AreStops(events, entries, ats, clock) && n < |entries|
    ensures AreStops(events + [StopAt(entries, n, clock)], entries, ats + [n], clock)
  {
    hide StopAt, IsStop;
    StopReports(entries, n, clock);
  }

  lemma NoneReported(starts: seq<Event>, previous: seq<SnapshotEntry>, current: seq<SnapshotEntry>, baseline: bool,
                     clock: Clock)
    ensures AreStarts(Starts(previous, current, baseline, clock, 0), current, Unmatched(current, previous, 0), baseline,
                      clock)
    ensures AreStops([], previous, Unmatched(previous, current, 0), clock)
    ensures ThenStops(starts, previous, current, clock, 0) == starts + []
  {
  }

  lemma {:induction false} StartsReport(previous: seq<SnapshotEntry>, current: seq<SnapshotEntry>, baseline: bool,
                                        clock: Clock, n: nat)
    requires n <= |current|
    ensures AreStarts(Starts(previous, current, baseline, clock, n), current, Unmatched(current, previous, n), baseline,
                      clock)
  {
    hide StartAt, Listed, AreStarts, Unmatched, Starts;
    if n == 0 {
      NoneReported([], previous, current, baseline, clock);
    } else {
      StartsStep(previous, current, baseline, clock, n);
      StartsReport(previous, current, baseline, clock, n - 1);
      OneMore(current, previous, n);
      OneMoreStart(Starts(previous, current, baseline, clock, n - 1), current, Unmatched(current, previous, n - 1),
                   baseline, clock, n - 1);
    }
  }

  lemma {:induction false} StopsReport(starts: seq<Event>, previous: seq<SnapshotEntry>, current: seq<SnapshotEntry>,
                                       clock: Clock, n: nat) returns (stops: seq<Event>)
    requires n <= |previous|
    ensures ThenStops(starts, previous, current, clock, n) == starts + stops
    ensures AreStops(stops, previous, Unmatched(previous, current, n), clock)
  {
    hide StopAt, Listed, AreStops, Unmatched, ThenStops;
    if n == 0 {
      stops := [];
      NoneReported(starts, previous, current, true, clock);
    } else {
      ThenStopsStep(starts, previous, current, clock, n);
      stops := StopsReport(starts, previous, current, clock, n - 1);
      OneMore(previous, current, n);
      OneMoreStop(stops, previous, Unmatched(previous, current, n - 1), clock, n - 1);
      if !Listed(current, previous[n - 1].key) {
        var stop := StopAt(previous, n - 1, clock);
        assert starts + (stops + [stop]) == starts + stops + [stop];
        stops := stops + [stop];
      }
    }
  }

  /** A poll emits one start per entry missing in the previous snapshot, then, except on the first poll, one
      stop per previous entry missing now, each in the order of its snapshot. */
  lemma PollReports(previous: seq<SnapshotEntry>, current: seq<SnapshotEntry>, initialized: bool, clock: Clock)
    returns (starts: seq<Event>, stops: seq<Event>)
    ensures PollEvents(previous, current, initialized, clock) == starts + stops
    ensures AreStarts(starts, current, Unmatched(current, previous, |current|), !initialized, clock)
    ensures if initialized then AreStops(stops, previous, Unmatched(previous, current, |previous|), clock)
            else stops == []
  {
    hide Starts, ThenStops, IsStart, IsStop, Unmatched;
    starts := Starts(previous, current, !initialized, clock, |current|);
    StartsReport(previous, current, !initialized, clock, |current|);
    if initialized {
      stops := StopsReport(starts, previous, current, clock, |previous|);
    } else {
      stops := [];
      assert starts + [] == starts;
    }
  }

  // ---- a run ----

  ghost predicate Starting(e: Event, entries: seq<SnapshotEntry>, baseline: bool, clock: Clock) {
    exists at: nat :: at < |entries| && IsStart(e, entries, at, baseline, clock)
  }

  ghost predicate Stopping(e: Event, entries: seq<SnapshotEntry>, clock: Clock) {
    exists at: nat :: at < |entries| && IsStop(e, entries, at, clock)
  }

  /** The event starts an entry of the snapshot of poll `n`, or stops one of the snapshot before. */
  ghost predicate ReportedBy(e: Event, snapshots: seq<seq<SnapshotEntry>>, clocks: nat -> Clock, n: nat)
    requires n < |snapshots|
  {
    || Starting(e, snapshots[n], n == 0, clocks(n))
    || (n > 0 && Stopping(e, snapshots[n - 1], clocks(n)))
  }

  lemma PolledReported(snapshots: seq<seq<SnapshotEntry>>, clocks: nat -> Clock, n: nat, e: Event)
    requires n < |snapshots| && e in PollEvents(Previous(snapshots, n), snapshots[n], n > 0, clocks(n))
    ensures ReportedBy(e, snapshots, clocks, n)
  {
    hide IsStart, IsStop, PollEvents, Unmatched;
    var starts, stops := PollReports(Previous(snapshots, n), snapshots[n], n > 0, clocks(n));
    if e in starts {
      var k :| 0 <= k < |starts| && starts[k] == e;
      assert Starting(e, snapshots[n], n == 0, clocks(n));
    } else {
      var k :| 0 <= k < |stops| && stops[k] == e;
      assert Stopping(e, snapshots[n - 1], clocks(n));
    }
  }

  /** Every event of a run of polls reports an entry of one of its snapshots. */
  lemma {:induction false} RunReports(snapshots: seq<seq<SnapshotEntry>>, clocks: nat -> Clock, e: Event)
    requires e in RunEvents(snapshots, clocks)
    ensures exists n :: 0 <= n < |snapshots| && ReportedBy(e, snapshots, clocks, n)
  {
    hide Starting, Stopping, PollEvents;
    if snapshots == [] {
    } else {
      var n := |snapshots| - 1;
      if e in RunEvents(snapshots[..n], clocks) {
        RunReports(snapshots[..n], clocks, e);
        var i :| 0 <= i < n && ReportedBy(e, snapshots[..n], clocks, i);
        assert i > 0 ==> snapshots[..n][i - 1] == snapshots[i - 1];
        assert ReportedBy(e, snapshots, clocks, i);
      } else {
        PolledReported(snapshots, clocks, n, e);
      }
    }
  }

  /** So over a run no event reports a parent known to be younger than its process. */
  lemma ParentsAreOlder(snapshots: seq<seq<SnapshotEntry>>, clocks: nat -> Clock, e: Event)
    requires e in RunEvents(snapshots, clocks)
    ensures !(0 < e.process.creationTime < e.parent.creationTime)
  {
    hide RunEvents, Reports;
    RunReports(snapshots, clocks, e);
    var n :| 0 <= n < |snapshots| && ReportedBy(e, snapshots, clocks, n);
    if Starting(e, snapshots[n], n == 0, clocks(n)) {
      var at: nat :| at < |snapshots[n]| && IsStart(e, snapshots[n], at, n == 0, clocks(n));
      NoYoungerParent(e, snapshots[n], at);
    } else {
      var at: nat :| at < |snapshots[n - 1]| && IsStop(e, snapshots[n - 1], at, clocks(n));
      NoYoungerParent(e, snapshots[n - 1], at);
    }
  }
}
