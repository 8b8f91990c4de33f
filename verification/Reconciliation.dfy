/** Fallback mode end to end: what the event store shows after draining the events of a run of
    successful polls, compared with the snapshots that were taken. */
module Reconciliation {
  import opened WideStrings
  import opened Events
  import opened Snapshots
  import opened StoreModel
  import opened StoreHistory

  ghost function Keys(entries: seq<SnapshotEntry>): set<ProcessKey> {
    set i | 0 <= i < |entries| :: entries[i].key
  }

  /** No entry of this PID lacks its creation time. */
  ghost predicate KnownPid(entries: seq<SnapshotEntry>, pid: Dword) {
    forall i :: 0 <= i < |entries| && entries[i].key.pid == pid ==> entries[i].key.creationTime != 0
  }

  /** All events of a run of polls from a fresh monitor; `clocks` reads the clock of each poll. */
  function RunEvents(snapshots: seq<seq<SnapshotEntry>>, clocks: nat -> Clock): seq<Event> {
    if snapshots == [] then []
    else
      var n := |snapshots| - 1;
      RunEvents(snapshots[..n], clocks) +
      PollEvents(Previous(snapshots, n), snapshots[n], n > 0, clocks(n))
  }

  /** What the monitor remembers when it takes snapshot `n`. */
  function Previous(snapshots: seq<seq<SnapshotEntry>>, n: nat): seq<SnapshotEntry>
    requires n < |snapshots|
  {
    if n == 0 then [] else snapshots[n - 1]
  }

  // ---- the transitions of one identity ----

  predicate IsTransition(e: Event, kind: EventType, k: ProcessKey) { e.kind == kind && e.process == k }

  predicate Mentions(events: seq<Event>, kind: EventType, k: ProcessKey) {
    events != [] && (IsTransition(events[|events| - 1], kind, k) || Mentions(events[..|events| - 1], kind, k))
  }

  lemma {:induction false} MentionsConcat(a: seq<Event>, b: seq<Event>, kind: EventType, k: ProcessKey)
    ensures Mentions(a + b, kind, k) <==> Mentions(a, kind, k) || Mentions(b, kind, k)
  {
    if b == [] {
      assert a + b == a;
    } else {
      assert (a + b)[..|a + b| - 1] == a + b[..|b| - 1];
      MentionsConcat(a, b[..|b| - 1], kind, k);
    }
  }

  lemma MentionsAppend(events: seq<Event>, e: Event, kind: EventType, k: ProcessKey)
    ensures Mentions(events + [e], kind, k) <==> Mentions(events, kind, k) || IsTransition(e, kind, k)
  {
  }

  /** The key is carried by one of the first `n` entries. */
  ghost predicate Among(entries: seq<SnapshotEntry>, k: ProcessKey, n: nat) {
    exists i :: 0 <= i < n <= |entries| && entries[i].key == k
  }

  lemma AmongStep(entries: seq<SnapshotEntry>, k: ProcessKey, n: nat)
    requires n < |entries|
    ensures Among(entries, k, n + 1) <==> Among(entries, k, n) || entries[n].key == k
  {
  }

  lemma AmongAll(entries: seq<SnapshotEntry>, k: ProcessKey)
    ensures Among(entries, k, |entries|) <==> k in Keys(entries)
  {
  }

  lemma LookupIsMembership(entries: seq<SnapshotEntry>, k: ProcessKey)
    requires Exact(k) && KnownPid(entries, k.pid)
    ensures Listed(entries, k) <==> k in Keys(entries)
  {
  }

  lemma StartAtKey(entries: seq<SnapshotEntry>, at: nat, baseline: bool, clock: Clock, kind: EventType, k: ProcessKey)
    requires at < |entries|
    ensures IsTransition(StartAt(entries, at, baseline, clock), kind, k) <==>
      kind == ProcessStart && entries[at].key == k
  {
  }

  lemma StopAtKey(entries: seq<SnapshotEntry>, at: nat, clock: Clock, kind: EventType, k: ProcessKey)
    requires at < |entries|
    ensures IsTransition(StopAt(entries, at, clock), kind, k) <==> kind == ProcessStop && entries[at].key == k
  {
  }

  lemma NoStarts(previous: seq<SnapshotEntry>, current: seq<SnapshotEntry>, baseline: bool, clock: Clock, k: ProcessKey)
    ensures Starts(previous, current, baseline, clock, 0) == [] && !Among(current, k, 0)
    ensures forall kind :: !Mentions([], kind, k)
    ensures forall on :: Track(on, [], k) == Some(on)
  {
  }

  lemma NoStops(starts: seq<Event>, previous: seq<SnapshotEntry>, current: seq<SnapshotEntry>, clock: Clock,
                k: ProcessKey)
    ensures ThenStops(starts, previous, current, clock, 0) == starts && !Among(previous, k, 0)
  {
  }

  lemma {:induction false} StartMentions(previous: seq<SnapshotEntry>, current: seq<SnapshotEntry>, baseline: bool,
                                         clock: Clock, n: nat, kind: EventType, k: ProcessKey)
    requires n <= |current| && Exact(k) && KnownPid(previous, k.pid)
    ensures Mentions(Starts(previous, current, baseline, clock, n), kind, k) <==>
      kind == ProcessStart && k !in Keys(previous) && Among(current, k, n)
  {
    hide StartAt, Keys, Listed, KnownPid, IsTransition, Mentions, Among, Starts;
    if n == 0 {
      NoStarts(previous, current, baseline, clock, k);
    } else {
      StartsStep(previous, current, baseline, clock, n);
      StartMentions(previous, current, baseline, clock, n - 1, kind, k);
      StartAtKey(current, n - 1, baseline, clock, kind, k);
      MentionsAppend(Starts(previous, current, baseline, clock, n - 1), StartAt(current, n - 1, baseline, clock),
                     kind, k);
      AmongStep(current, k, n - 1);
      LookupIsMembership(previous, k);
    }
  }

  lemma {:induction false} StopMentions(starts: seq<Event>, previous: seq<SnapshotEntry>, current: seq<SnapshotEntry>,
                                        clock: Clock, n: nat, kind: EventType, k: ProcessKey)
    requires n <= |previous| && Exact(k) && KnownPid(current, k.pid)
    ensures Mentions(ThenStops(starts, previous, current, clock, n), kind, k) <==>
      Mentions(starts, kind, k) || (kind == ProcessStop && k !in Keys(current) && Among(previous, k, n))
  {
    hide StopAt, Keys, Listed, KnownPid, IsTransition, Mentions, Among, ThenStops;
    if n == 0 {
      NoStops(starts, previous, current, clock, k);
    } else {
      ThenStopsStep(starts, previous, current, clock, n);
      StopMentions(starts, previous, current, clock, n - 1, kind, k);
      StopAtKey(previous, n - 1, clock, kind, k);
      MentionsAppend(ThenStops(starts, previous, current, clock, n - 1), StopAt(previous, n - 1, clock), kind, k);
      AmongStep(previous, k, n - 1);
      LookupIsMembership(current, k);
    }
  }

  /** A poll starts `k` iff it appeared and stops it iff it vanished. */
  lemma PollMentions(previous: seq<SnapshotEntry>, current: seq<SnapshotEntry>, initialized: bool, clock: Clock,
                     k: ProcessKey)
    requires Exact(k) && KnownPid(previous, k.pid) && KnownPid(current, k.pid)
    requires !initialized ==> previous == []
    ensures var events := PollEvents(previous, current, initialized, clock);
      && (Mentions(events, ProcessStart, k) <==> Gone(current, previous, k))
      && (Mentions(events, ProcessStop, k) <==> Gone(previous, current, k))
  {
    var starts := Starts(previous, current, !initialized, clock, |current|);
    AmongAll(current, k);
    AmongAll(previous, k);
    StartMentions(previous, current, !initialized, clock, |current|, ProcessStart, k);
    StartMentions(previous, current, !initialized, clock, |current|, ProcessStop, k);
    StopMentions(starts, previous, current, clock, |previous|, ProcessStart, k);
    StopMentions(starts, previous, current, clock, |previous|, ProcessStop, k);
    hide Starts, ThenStops, Mentions, Among, KnownPid;
  }

  // ---- the transitions over a run ----

  ghost predicate KnownThroughout(snapshots: seq<seq<SnapshotEntry>>, pid: Dword) {
    forall j :: 0 <= j < |snapshots| ==> KnownPid(snapshots[j], pid)
  }

  /** `k` was in some snapshot and not in the next. */
  ghost predicate Vanished(snapshots: seq<seq<SnapshotEntry>>, k: ProcessKey) {
    exists j :: 0 < j < |snapshots| && Gone(snapshots[j - 1], snapshots[j], k)
  }

  ghost predicate Gone(previous: seq<SnapshotEntry>, current: seq<SnapshotEntry>, k: ProcessKey) {
    k in Keys(previous) && k !in Keys(current)
  }

  ghost predicate Seen(snapshots: seq<seq<SnapshotEntry>>, k: ProcessKey) {
    exists j :: 0 <= j < |snapshots| && k in Keys(snapshots[j])
  }

  ghost predicate InLast(snapshots: seq<seq<SnapshotEntry>>, k: ProcessKey) {
    snapshots != [] && k in Keys(snapshots[|snapshots| - 1])
  }

  /** A run of polls starts `k` iff some snapshot held it and stops it iff it vanished. */
  lemma {:induction false} RunMentions(snapshots: seq<seq<SnapshotEntry>>, clocks: nat -> Clock, k: ProcessKey)
    requires Exact(k) && KnownThroughout(snapshots, k.pid)
    ensures Mentions(RunEvents(snapshots, clocks), ProcessStart, k) <==> Seen(snapshots, k)
    ensures Mentions(RunEvents(snapshots, clocks), ProcessStop, k) <==> Vanished(snapshots, k)
  {
    if snapshots == [] {
    } else {
      hide PollEvents, Mentions, Keys, Seen, Vanished, KnownPid, InLast;
      var n := |snapshots| - 1;
      var before := snapshots[..n];
      var previous := Previous(snapshots, n);
      var polled := PollEvents(previous, snapshots[n], n > 0, clocks(n));
      LastBefore(snapshots, k);
      RunMentions(before, clocks, k);
      MentionsConcat(RunEvents(before, clocks), polled, ProcessStart, k);
      MentionsConcat(RunEvents(before, clocks), polled, ProcessStop, k);
      PollMentions(previous, snapshots[n], n > 0, clocks(n), k);
      HistoryGrows(snapshots, k);
    }
  }

  lemma LastBefore(snapshots: seq<seq<SnapshotEntry>>, k: ProcessKey)
    requires snapshots != []
    ensures InLast(snapshots[..|snapshots| - 1], k) <==> k in Keys(Previous(snapshots, |snapshots| - 1))
  {
  }

  lemma HistoryGrows(snapshots: seq<seq<SnapshotEntry>>, k: ProcessKey)
    requires snapshots != []
    ensures var n := |snapshots| - 1;
      && (Seen(snapshots, k) <==> Seen(snapshots[..n], k) || InLast(snapshots, k))
      && (InLast(snapshots[..n], k) ==> Seen(snapshots[..n], k))
      && (Vanished(snapshots, k) <==>
        Vanished(snapshots[..n], k) || (n > 0 && Gone(snapshots[n - 1], snapshots[n], k)))
  {
  }

  // ---- start and stop alternate ----

  /** Reads the transitions of `k` as a switch: a start must find it off, a stop must find it on. */
  function Track(on: bool, events: seq<Event>, k: ProcessKey): Option<bool> {
    if events == [] then Some(on)
    else
      var e := events[|events| - 1];
      match Track(on, events[..|events| - 1], k)
      case None => None
      case Some(now) =>
        if IsTransition(e, ProcessStart, k) then (if now then None else Some(true))
        else if IsTransition(e, ProcessStop, k) then (if now then Some(false) else None)
        else Some(now)
  }

  lemma {:induction false} TrackConcat(on: bool, a: seq<Event>, b: seq<Event>, k: ProcessKey)
    ensures Track(on, a + b, k) == match Track(on, a, k) case None => None case Some(now) => Track(now, b, k)
  {
    if b == [] {
      assert a + b == a;
    } else {
      assert (a + b)[..|a + b| - 1] == a + b[..|b| - 1];
      TrackConcat(on, a, b[..|b| - 1], k);
    }
  }

  lemma TrackAppend(on: bool, events: seq<Event>, e: Event, k: ProcessKey)
    ensures Track(on, events + [e], k) ==
      match Track(on, events, k)
      case None => None
      case Some(now) =>
        if IsTransition(e, ProcessStart, k) then (if now then None else Some(true))
        else if IsTransition(e, ProcessStop, k) then (if now then Some(false) else None)
        else Some(now)
  {
  }

  ghost predicate Distinct(entries: seq<SnapshotEntry>) {
    forall i, j :: 0 <= i < j < |entries| ==> entries[i].key != entries[j].key
  }

  lemma DistinctAmong(entries: seq<SnapshotEntry>, k: ProcessKey, n: nat)
    requires n < |entries| && Distinct(entries)
    ensures entries[n].key == k ==> !Among(entries, k, n) && k in Keys(entries)
  {
  }

  lemma {:induction false} StartTrack(previous: seq<SnapshotEntry>, current: seq<SnapshotEntry>, baseline: bool,
                                      clock: Clock, n: nat, k: ProcessKey)
    requires n <= |current| && Exact(k) && KnownPid(previous, k.pid) && Distinct(current)
    ensures Track(k in Keys(previous), Starts(previous, current, baseline, clock, n), k) ==
      Some(k in Keys(previous) || Among(current, k, n))
  {
    hide StartAt, Keys, Listed, KnownPid, IsTransition, Distinct, Track, Among, Starts;
    var on := k in Keys(previous);
    if n == 0 {
      NoStarts(previous, current, baseline, clock, k);
    } else {
      StartsStep(previous, current, baseline, clock, n);
      StartTrack(previous, current, baseline, clock, n - 1, k);
      StartAtKey(current, n - 1, baseline, clock, ProcessStart, k);
      StartAtKey(current, n - 1, baseline, clock, ProcessStop, k);
      TrackAppend(on, Starts(previous, current, baseline, clock, n - 1), StartAt(current, n - 1, baseline, clock), k);
      AmongStep(current, k, n - 1);
      DistinctAmong(current, k, n - 1);
      LookupIsMembership(previous, k);
    }
  }

  lemma {:induction false} StopTrack(on: bool, starts: seq<Event>, previous: seq<SnapshotEntry>,
                                     current: seq<SnapshotEntry>, clock: Clock, n: nat, k: ProcessKey)
    requires n <= |previous| && Exact(k) && KnownPid(current, k.pid) && Distinct(previous)
    requires Track(on, starts, k) == Some(k in Keys(previous) || k in Keys(current))
    ensures Track(on, ThenStops(starts, previous, current, clock, n), k) ==
      Some(k in Keys(current) || (k in Keys(previous) && !Among(previous, k, n)))
  {
    hide StopAt, Keys, Listed, KnownPid, IsTransition, Distinct, Track, Among, ThenStops;
    if n == 0 {
      NoStops(starts, previous, current, clock, k);
    } else {
      ThenStopsStep(starts, previous, current, clock, n);
      StopTrack(on, starts, previous, current, clock, n - 1, k);
      StopAtKey(previous, n - 1, clock, ProcessStart, k);
      StopAtKey(previous, n - 1, clock, ProcessStop, k);
      TrackAppend(on, ThenStops(starts, previous, current, clock, n - 1), StopAt(previous, n - 1, clock), k);
      AmongStep(previous, k, n - 1);
      DistinctAmong(previous, k, n - 1);
      LookupIsMembership(current, k);
    }
  }

  /** For snapshots without duplicate keys, the events of an identity over a run alternate start,
      stop, start, ..., beginning with a start, and end on whether the last snapshot holds it. */
  lemma {:induction false} TransitionsAlternate(snapshots: seq<seq<SnapshotEntry>>, clocks: nat -> Clock, k: ProcessKey)
    requires Exact(k) && KnownThroughout(snapshots, k.pid)
    requires forall j :: 0 <= j < |snapshots| ==> Distinct(snapshots[j])
    ensures Track(false, RunEvents(snapshots, clocks), k) == Some(InLast(snapshots, k))
  {
    if snapshots == [] {
    } else {
      hide Starts, ThenStops, Track, Among, Keys, KnownPid, Distinct, InLast;
      var n := |snapshots| - 1;
      var before := snapshots[..n];
      var previous := Previous(snapshots, n);
      var starts := Starts(previous, snapshots[n], n == 0, clocks(n), |snapshots[n]|);
      TransitionsAlternate(before, clocks, k);
      LastBefore(snapshots, k);
      TrackConcat(false, RunEvents(before, clocks), PollEvents(previous, snapshots[n], n > 0, clocks(n)), k);
      StartTrack(previous, snapshots[n], n == 0, clocks(n), |snapshots[n]|, k);
      AmongAll(snapshots[n], k);
      AmongAll(previous, k);
      if n > 0 {
        StopTrack(k in Keys(previous), starts, previous, snapshots[n], clocks(n), |previous|, k);
      }
    }
  }

  // ---- the store mirrors the last snapshot ----

  /** The process events among others, in order. */
  function OnlyProcessEvents(events: seq<Event>): seq<Event> {
    if events == [] then []
    else
      var e := events[|events| - 1];
      var earlier := OnlyProcessEvents(events[..|events| - 1]);
      if IsProcessEvent(e) then earlier + [e] else earlier
  }

  /** The process events among the inputs of a store, in order. */
  function ProcessEvents(inputs: seq<Input>): seq<Event> { OnlyProcessEvents(EventsOf(inputs)) }

  lemma ProcessEventsAppend(inputs: seq<Input>, x: Input)
    ensures ProcessEvents(inputs + [x]) ==
      if IsProcessEvent(x.event) then ProcessEvents(inputs) + [x.event] else ProcessEvents(inputs)
  {
    hide IsProcessEvent;
    assert EventsOf(inputs + [x]) == EventsOf(inputs) + [x.event];
    assert EventsOf(inputs + [x])[..|inputs|] == EventsOf(inputs);
  }

  lemma NoInputs()
    ensures ProcessEvents([]) == []
  {
  }

  lemma {:induction false} OnlyProcessConcat(a: seq<Event>, b: seq<Event>)
    ensures OnlyProcessEvents(a + b) == OnlyProcessEvents(a) + OnlyProcessEvents(b)
  {
    hide IsProcessEvent;
    if b == [] {
      assert a + b == a;
    } else {
      assert (a + b)[..|a + b| - 1] == a + b[..|b| - 1];
      OnlyProcessConcat(a, b[..|b| - 1]);
    }
  }

  lemma ProcessEventsConcat(a: seq<Input>, b: seq<Input>)
    ensures ProcessEvents(a + b) == ProcessEvents(a) + ProcessEvents(b)
  {
    OnlyProcessConcat(EventsOf(a), EventsOf(b));
    assert EventsOf(a + b) == EventsOf(a) + EventsOf(b);
  }

  lemma {:induction false} MentionedInputs(inputs: seq<Input>, kind: EventType, k: ProcessKey)
    requires kind.ProcessStart? || kind.ProcessStop?
    ensures Mentions(ProcessEvents(inputs), kind, k) <==> exists i :: 0 <= i < |inputs| && Reports(inputs[i], kind, k)
  {
    if inputs == [] {
    } else {
      var n := |inputs| - 1;
      MentionedInputs(inputs[..n], kind, k);
      ProcessEventsAppend(inputs[..n], inputs[n]);
      assert inputs[..n] + [inputs[n]] == inputs;
      hide ProcessEvents, Mentions;
      MentionsAppend(ProcessEvents(inputs[..n]), inputs[n].event, kind, k);
      assert Reports(inputs[n], kind, k) <==> IsTransition(inputs[n].event, kind, k);
    }
  }

  lemma KeptReported(inputs: seq<Input>, kind: EventType, k: ProcessKey)
    requires AllKept(inputs) && (kind.ProcessStart? || kind.ProcessStop?)
    ensures Reported(inputs, kind, k) <==> Mentions(ProcessEvents(inputs), kind, k)
  {
    hide Mentions, ProcessEvents, Reports, Dropped;
    MentionedInputs(inputs, kind, k);
  }

  /** The process events the store was fed are those of the run of polls, all of them processed. */
  ghost predicate Fed(inputs: seq<Input>, snapshots: seq<seq<SnapshotEntry>>, clocks: nat -> Clock) {
    && ProcessEvents(inputs) == RunEvents(snapshots, clocks)
    && AllKept(inputs)
  }

  // Known snapshot times make known stop times.

  ghost predicate NoUntimedStop(events: seq<Event>, pid: Dword) {
    forall i :: 0 <= i < |events| ==> !UntimedStop(events[i], pid)
  }

  lemma {:induction false} StartsTimed(previous: seq<SnapshotEntry>, current: seq<SnapshotEntry>, baseline: bool,
                                       clock: Clock, n: nat, pid: Dword)
    requires n <= |current|
    ensures NoUntimedStop(Starts(previous, current, baseline, clock, n), pid)
  {
    hide Listed, StartAt;
    if n == 0 {
    } else {
      StartsTimed(previous, current, baseline, clock, n - 1, pid);
      StartAtKey(current, n - 1, baseline, clock, ProcessStart, current[n - 1].key);
    }
  }

  lemma {:induction false} StopsTimed(starts: seq<Event>, previous: seq<SnapshotEntry>, current: seq<SnapshotEntry>,
                                      clock: Clock, n: nat, pid: Dword)
    requires n <= |previous| && KnownPid(previous, pid) && NoUntimedStop(starts, pid)
    ensures NoUntimedStop(ThenStops(starts, previous, current, clock, n), pid)
  {
    hide Listed, StopAt;
    if n == 0 {
    } else {
      StopsTimed(starts, previous, current, clock, n - 1, pid);
      StopAtKey(previous, n - 1, clock, ProcessStop, previous[n - 1].key);
    }
  }

  lemma {:induction false} RunTimed(snapshots: seq<seq<SnapshotEntry>>, clocks: nat -> Clock, pid: Dword)
    requires KnownThroughout(snapshots, pid)
    ensures NoUntimedStop(RunEvents(snapshots, clocks), pid)
  {
    hide Starts, ThenStops, UntimedStop;
    if snapshots == [] {
    } else {
      var n := |snapshots| - 1;
      var previous := Previous(snapshots, n);
      var starts := Starts(previous, snapshots[n], n == 0, clocks(n), |snapshots[n]|);
      RunTimed(snapshots[..n], clocks, pid);
      StartsTimed(previous, snapshots[n], n == 0, clocks(n), |snapshots[n]|, pid);
      StopsTimed(starts, previous, snapshots[n], clocks(n), |previous|, pid);
    }
  }

  lemma {:induction false} InputsTimed(inputs: seq<Input>, pid: Dword)
    requires NoUntimedStop(ProcessEvents(inputs), pid)
    ensures StopTimesKnown(inputs, pid)
  {
    hide ProcessEvents;
    if inputs == [] {
    } else {
      var (before, last) := (inputs[..|inputs| - 1], inputs[|inputs| - 1]);
      assert inputs == before + [last];
      ProcessEventsAppend(before, last);
      var (events, earlier) := (ProcessEvents(inputs), ProcessEvents(before));
      assert forall i :: 0 <= i < |earlier| ==> events[i] == earlier[i];
      assert IsProcessEvent(last.event) ==> events[|earlier|] == last.event;
      InputsTimed(before, pid);
    }
  }

  /** An identity is active in the store after a run of polls iff the last snapshot holds it and it
      never vanished before. */
  lemma ActiveIffNeverVanished(inputs: seq<Input>, snapshots: seq<seq<SnapshotEntry>>, clocks: nat -> Clock,
                               k: ProcessKey)
    requires Exact(k) && KnownThroughout(snapshots, k.pid)
    requires Fed(inputs, snapshots, clocks)
    ensures k in ActiveKeys(Run(inputs)) <==> InLast(snapshots, k) && !Vanished(snapshots, k)
  {
    hide Run, AllKept, ActiveKeys, RunEvents, Mentions, Seen, Vanished, InLast, ProcessEvents, NoUntimedStop;
    RunTimed(snapshots, clocks, k.pid);
    InputsTimed(inputs, k.pid);
    RunMentions(snapshots, clocks, k);
    KeptReported(inputs, ProcessStart, k);
    KeptReported(inputs, ProcessStop, k);
    ActiveIffStartedNotStopped(inputs, k);
    SeenUntilVanished(snapshots, k);
  }

  lemma {:induction false} SeenUntilVanished(snapshots: seq<seq<SnapshotEntry>>, k: ProcessKey)
    ensures !Vanished(snapshots, k) ==> (Seen(snapshots, k) <==> InLast(snapshots, k))
  {
    if snapshots == [] {
    } else {
      SeenUntilVanished(snapshots[..|snapshots| - 1], k);
      HistoryGrows(snapshots, k);
    }
  }

  lemma UnknownAbsent(s: StoreState, snapshots: seq<seq<SnapshotEntry>>, k: ProcessKey)
    requires !Exact(k) && k.pid != 0 && KnownThroughout(snapshots, k.pid)
    ensures k !in ActiveKeys(s) && !InLast(snapshots, k)
  {
  }

  /** In fallback mode the store's active identities equal the last snapshot's, as far as the PIDs
      always carry creation times, if and only if none of the latter vanished and came back. */
  lemma StoreMirrorsSnapshot(inputs: seq<Input>, snapshots: seq<seq<SnapshotEntry>>, clocks: nat -> Clock, pid: Dword)
    requires pid != 0 && snapshots != [] && KnownThroughout(snapshots, pid)
    requires Fed(inputs, snapshots, clocks)
    ensures
      (forall k: ProcessKey | k.pid == pid :: k in ActiveKeys(Run(inputs)) <==> InLast(snapshots, k)) <==>
      (forall k: ProcessKey | k.pid == pid && InLast(snapshots, k) :: !Vanished(snapshots, k))
  {
    hide Run, Fed, Vanished, InLast, ActiveKeys, KnownThroughout;
    forall k: ProcessKey | k.pid == pid
      ensures k in ActiveKeys(Run(inputs)) <==> InLast(snapshots, k) && !Vanished(snapshots, k)
    {
      if Exact(k) {
        ActiveIffNeverVanished(inputs, snapshots, clocks, k);
      } else {
        UnknownAbsent(Run(inputs), snapshots, k);
      }
    }
  }
}
