/** What a run of polls emits at most, and that the store can be fed it. */
module PolledRuns {
  import opened Events
  import opened Snapshots
  import opened StoreModel
  import opened Reconciliation
  import SourceOrder

  // ---- polls push only process events ----

  lemma {:induction false} StartsAreProcess(previous: seq<SnapshotEntry>, current: seq<SnapshotEntry>, baseline: bool,
                                            clock: Clock, n: nat)
    requires n <= |current|
    ensures var events := Starts(previous, current, baseline, clock, n); OnlyProcessEvents(events) == events
  {
    hide Listed, StartAt;
    if n == 0 {
    } else {
      StartsAreProcess(previous, current, baseline, clock, n - 1);
      StartAtKey(current, n - 1, baseline, clock, ProcessStart, current[n - 1].key);
    }
  }

  lemma {:induction false} StopsAreProcess(starts: seq<Event>, previous: seq<SnapshotEntry>,
                                           current: seq<SnapshotEntry>, clock: Clock, n: nat)
    requires n <= |previous| && OnlyProcessEvents(starts) == starts
    ensures var events := ThenStops(starts, previous, current, clock, n); OnlyProcessEvents(events) == events
  {
    hide Listed, StopAt;
    if n == 0 {
    } else {
      StopsAreProcess(starts, previous, current, clock, n - 1);
      StopAtKey(previous, n - 1, clock, ProcessStop, previous[n - 1].key);
    }
  }

  lemma PolledAreProcess(previous: seq<SnapshotEntry>, current: seq<SnapshotEntry>, initialized: bool, clock: Clock)
    ensures var events := PollEvents(previous, current, initialized, clock); OnlyProcessEvents(events) == events
  {
    hide Starts, ThenStops;
    StartsAreProcess(previous, current, !initialized, clock, |current|);
    StopsAreProcess(Starts(previous, current, !initialized, clock, |current|), previous, current, clock, |previous|);
  }

  lemma {:induction false} RunIsProcess(snapshots: seq<seq<SnapshotEntry>>, clocks: nat -> Clock)
    ensures OnlyProcessEvents(RunEvents(snapshots, clocks)) == RunEvents(snapshots, clocks)
  {
    hide PollEvents, OnlyProcessEvents;
    if snapshots == [] {
      NothingProcess();
    } else {
      var n := |snapshots| - 1;
      RunIsProcess(snapshots[..n], clocks);
      var polled := PollEvents(Previous(snapshots, n), snapshots[n], n > 0, clocks(n));
      PolledAreProcess(Previous(snapshots, n), snapshots[n], n > 0, clocks(n));
      OnlyProcessConcat(RunEvents(snapshots[..n], clocks), polled);
    }
  }

  lemma NothingProcess()
    ensures OnlyProcessEvents([]) == []
  {
  }

  // ---- how many events ----

  lemma {:induction false} FewStarts(previous: seq<SnapshotEntry>, current: seq<SnapshotEntry>, baseline: bool,
                                     clock: Clock, n: nat)
    requires n <= |current|
    ensures |Starts(previous, current, baseline, clock, n)| <= n
  {
    hide Listed, StartAt;
    if n == 0 {
    } else {
      FewStarts(previous, current, baseline, clock, n - 1);
    }
  }

  lemma {:induction false} FewStops(starts: seq<Event>, previous: seq<SnapshotEntry>, current: seq<SnapshotEntry>,
                                    clock: Clock, n: nat)
    requires n <= |previous|
    ensures |ThenStops(starts, previous, current, clock, n)| <= |starts| + n
  {
    hide Listed, StopAt;
    if n == 0 {
    } else {
      FewStops(starts, previous, current, clock, n - 1);
    }
  }

  lemma FewPolled(previous: seq<SnapshotEntry>, current: seq<SnapshotEntry>, initialized: bool, clock: Clock)
    ensures |PollEvents(previous, current, initialized, clock)| <= |current| + |previous|
  {
    hide Starts, ThenStops;
    FewStarts(previous, current, !initialized, clock, |current|);
    FewStops(Starts(previous, current, !initialized, clock, |current|), previous, current, clock, |previous|);
  }

  lemma {:induction false} FewEvents(snapshots: seq<seq<SnapshotEntry>>, clocks: nat -> Clock)
    requires forall j :: 0 <= j < |snapshots| ==> |snapshots[j]| <= 1
    ensures |RunEvents(snapshots, clocks)| <= 2 * |snapshots|
  {
    hide PollEvents;
    if snapshots == [] {
    } else {
      var n := |snapshots| - 1;
      FewEvents(snapshots[..n], clocks);
      FewPolled(Previous(snapshots, n), snapshots[n], n > 0, clocks(n));
    }
  }

  /** With memory the events of a run over snapshots of at most one entry reach the store, if few enough
      for the first block of records. */
  lemma CanBeFed(snapshots: seq<seq<SnapshotEntry>>, clocks: nat -> Clock)
    requires 2 * |snapshots| <= FIRST_RECORDS && forall j :: 0 <= j < |snapshots| ==> |snapshots[j]| <= 1
    ensures Fed(SourceOrder.Inputs(RunEvents(snapshots, clocks)), snapshots, clocks)
  {
    hide RunEvents, OnlyProcessEvents, SourceOrder.Room, AllKept;
    var events := RunEvents(snapshots, clocks);
    RunIsProcess(snapshots, clocks);
    FewEvents(snapshots, clocks);
    SourceOrder.FirstBlock(|events|);
    SourceOrder.NothingDropped(events);
    assert EventsOf(SourceOrder.Inputs(events)) == events;
  }
}
