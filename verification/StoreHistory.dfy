/** Whole-run properties of the event store: which processes end up active, what the log can
    contain, what the counters count and how much reallocation costs. */
module StoreHistory {
  import opened WideStrings
  import opened Events
  import opened StoreModel
  import opened StoreInvariants
  import Capacity

  // ---- merging two telemetry sources ----

  ghost predicate HasRecord(s: StoreState, k: ProcessKey) {
    exists i :: 0 <= i < |s.processes| && s.processes[i].key == k
  }

  ghost predicate IsActive(s: StoreState, k: ProcessKey) {
    exists i :: 0 <= i < |s.processes| && s.processes[i].key == k && s.processes[i].active
  }

  /** The identities of the records that are active, wildcard records aside. */
  ghost function ActiveKeys(s: StoreState): set<ProcessKey> {
    set i | 0 <= i < |s.processes| && s.processes[i].active && Exact(s.processes[i].key) :: s.processes[i].key
  }

  /** Some call reported this transition of `k` and found memory for its record. */
  ghost predicate Reported(inputs: seq<Input>, kind: EventType, k: ProcessKey) {
    exists i :: 0 <= i < |inputs| && Reports(inputs[i], kind, k) && !Dropped(inputs, i)
  }

  predicate Reports(input: Input, kind: EventType, k: ProcessKey) {
    input.event.kind == kind && input.event.process == k
  }

  /** A stop of this PID without its creation time: it matches whatever record of the PID is active. */
  predicate UntimedStop(e: Event, pid: Dword) { e.kind.ProcessStop? && e.process == ProcessKey(pid, 0) }

  /** No stop of this PID lacks its creation time; starts may. */
  ghost predicate StopTimesKnown(inputs: seq<Input>, pid: Dword) {
    forall i :: 0 <= i < |inputs| ==> !UntimedStop(inputs[i].event, pid)
  }

  /** What a lookup finds, seen from the identity `k`. */
  lemma FoundFor(ps: seq<ProcessRecord>, key: ProcessKey, k: ProcessKey)
    requires Exact(k)
    ensures match FindProcess(ps, key)
      case None => key == k ==> forall j :: 0 <= j < |ps| ==> ps[j].key != k
      case Some(i) =>
        && (key == k ==> ps[i].key == k || (ps[i].active && forall j :: 0 <= j < |ps| ==> ps[j].key != k))
        && (ps[i].key == k ==> key == k || key == ProcessKey(k.pid, 0))
  {
  }

  /** Writing or adding the record at `i`, seen from one identity. */
  lemma RecordStep(s: StoreState, t: StoreState, i: nat, k: ProcessKey)
    requires i < |t.processes| && |s.processes| <= |t.processes| <= |s.processes| + 1
    requires forall j :: 0 <= j < |t.processes| && j != i ==> j < |s.processes| && t.processes[j] == s.processes[j]
    requires i < |s.processes| && s.processes[i].key == k ==> t.processes[i].key == k
    requires IdentitiesUnique(s.processes) && IdentitiesUnique(t.processes) && Exact(k)
    ensures HasRecord(t, k) <==> HasRecord(s, k) || t.processes[i].key == k
    ensures t.processes[i].key == k ==> (IsActive(t, k) <==> t.processes[i].active)
    ensures t.processes[i].key != k ==> (IsActive(t, k) <==> IsActive(s, k))
    ensures i < |s.processes| && s.processes[i].key == k ==>
      HasRecord(s, k) && (IsActive(s, k) <==> s.processes[i].active)
  {
    if j :| 0 <= j < |s.processes| && s.processes[j].key == k {
      assert t.processes[j].key == k;
    }
  }

  /** What one call does to one identity.  An untimed stop of the PID blurs it: then only one
      direction is certain. */
  ghost predicate Stepped(s: StoreState, t: StoreState, k: ProcessKey, started: bool, stopped: bool, blurred: bool) {
    var expected := if started then IsActive(s, k) || !HasRecord(s, k) else !stopped && IsActive(s, k);
    && (HasRecord(t, k) <==> HasRecord(s, k) || started || stopped)
    && (IsActive(t, k) ==> expected)
    && (!blurred && expected ==> IsActive(t, k))
  }

  lemma StartStep(s: StoreState, e: Event, memory: bool, k: ProcessKey)
    requires Exact(k) && e.kind.ProcessStart?
    requires IdentitiesUnique(s.processes) && IdentitiesUnique(MergeStart(s, e, memory).state.processes)
    ensures var m := MergeStart(s, e, memory);
      Stepped(s, m.state, k, e.process == k && !m.NoMemory?, false, false)
  {
    hide ReserveRecord, IsActive, HasRecord, FindProcess;
    var t := MergeStart(s, e, memory).state;
    FoundFor(s.processes, e.process, k);
    NoRecord(s, k);
    match FindProcess(s.processes, e.process)
    case Some(i) => RecordStep(s, t, i, k);
    case None =>
      if t != s {
        RecordStep(s, t, |s.processes|, k);
      }
  }

  lemma StopStep(s: StoreState, e: Event, memory: bool, k: ProcessKey)
    requires Exact(k) && e.kind.ProcessStop?
    requires IdentitiesUnique(s.processes) && IdentitiesUnique(MergeStop(s, e, memory).state.processes)
    ensures var m := MergeStop(s, e, memory);
      Stepped(s, m.state, k, false, e.process == k && !m.NoMemory?, UntimedStop(e, k.pid))
  {
    hide ReserveRecord, IsActive, HasRecord, FindProcess;
    var t := MergeStop(s, e, memory).state;
    FoundFor(s.processes, e.process, k);
    NoRecord(s, k);
    match FindProcess(s.processes, e.process)
    case Some(i) => RecordStep(s, t, i, k);
    case None =>
      if t != s {
        RecordStep(s, t, |s.processes|, k);
      }
  }

  lemma NoRecord(s: StoreState, k: ProcessKey)
    ensures HasRecord(s, k) <==> !forall j :: 0 <= j < |s.processes| ==> s.processes[j].key != k
    ensures IsActive(s, k) ==> HasRecord(s, k)
  {
  }

  /** One call, seen from one identity. */
  lemma AddStep(s: StoreState, x: Input, k: ProcessKey)
    requires Exact(k) && Consistent(s)
    ensures var kept := !MergeEvent(s, x.event, x.recordMemory).NoMemory?;
      Stepped(s, AddInput(s, x).state, k,
              Reports(x, ProcessStart, k) && kept, Reports(x, ProcessStop, k) && kept, UntimedStop(x.event, k.pid))
  {
    hide MergeStart, MergeStop, Append, Stepped, CapacitiesSound, Numbered;
    MergeConsistent(s, x.event, x.recordMemory);
    var m := MergeEvent(s, x.event, x.recordMemory);
    AddMerges(s, x);
    match x.event.kind
    case ProcessStart =>
      StartStep(s, x.event, x.recordMemory, k);
      SteppedSame(s, m.state, AddInput(s, x).state, k, Reports(x, ProcessStart, k) && !m.NoMemory?, false, false);
    case ProcessStop =>
      StopStep(s, x.event, x.recordMemory, k);
      SteppedSame(s, m.state, AddInput(s, x).state, k, false, Reports(x, ProcessStop, k) && !m.NoMemory?,
                  UntimedStop(x.event, k.pid));
    case _ => Unstepped(s, AddInput(s, x).state, k);
  }

  /** The second half of a call leaves the records alone. */
  lemma AddMerges(s: StoreState, x: Input)
    ensures AddInput(s, x).state.processes == MergeEvent(s, x.event, x.recordMemory).state.processes
    ensures !IsProcessEvent(x.event) ==> AddInput(s, x).state.processes == s.processes
  {
    hide MergeStart, MergeStop, ReserveEvent;
  }

  /** Only the records matter to a step. */
  lemma SteppedSame(s: StoreState, t: StoreState, u: StoreState, k: ProcessKey, started: bool, stopped: bool,
                    blurred: bool)
    requires Stepped(s, t, k, started, stopped, blurred) && u.processes == t.processes
    ensures Stepped(s, u, k, started, stopped, blurred)
  {
  }

  lemma Unstepped(s: StoreState, t: StoreState, k: ProcessKey)
    requires s.processes == t.processes
    ensures Stepped(s, t, k, false, false, false)
  {
  }

  lemma ReportedExtends(inputs: seq<Input>, kind: EventType, k: ProcessKey)
    requires inputs != []
    ensures var n := |inputs| - 1;
      Reported(inputs, kind, k) <==>
        Reported(inputs[..n], kind, k) || (Reports(inputs[n], kind, k) && !Dropped(inputs, n))
  {
    hide MergeEvent;
    hide Run;
    var n := |inputs| - 1;
    forall i | 0 <= i < n ensures Dropped(inputs[..n], i) <==> Dropped(inputs, i) {
      assert inputs[..n][..i] == inputs[..i];
    }
  }

  /** The story of an identity, over any run: it has a record iff it was reported, and it is active
      only if it was started and not stopped. */
  lemma {:induction false} IdentityHistory(inputs: seq<Input>, k: ProcessKey)
    requires Exact(k)
    ensures var s := Run(inputs);
      && (HasRecord(s, k) <==> Reported(inputs, ProcessStart, k) || Reported(inputs, ProcessStop, k))
      && (IsActive(s, k) ==> Reported(inputs, ProcessStart, k) && !Reported(inputs, ProcessStop, k))
  {
    if inputs == [] {
    } else {
      var n := |inputs| - 1;
      var before := inputs[..n];
      RunStep(inputs);
      hide Run, AddInput, MergeEvent, Reported, HasRecord, IsActive, Consistent;
      IdentityHistory(before, k);
      RunConsistent(before);
      ReportedExtends(inputs, ProcessStart, k);
      ReportedExtends(inputs, ProcessStop, k);
      AddStep(Run(before), inputs[n], k);
    }
  }

  /** Untimed stops that come before every other process event of their PID find nothing to stop. */
  ghost predicate StopsFirst(inputs: seq<Input>, pid: Dword, first: nat) {
    && first <= |inputs|
    && (forall i :: 0 <= i < first ==> UntimedStop(inputs[i].event, pid))
    && (forall i :: first <= i < |inputs| ==> !UntimedStop(inputs[i].event, pid))
  }

  ghost predicate NoneActive(s: StoreState) { forall i :: 0 <= i < |s.processes| ==> !s.processes[i].active }

  lemma StopOfNothing(s: StoreState, x: Input, pid: Dword)
    requires NoneActive(s) && UntimedStop(x.event, pid)
    ensures NoneActive(AddInput(s, x).state)
  {
    hide ReserveRecord, ReserveEvent, NewRecord;
  }

  lemma {:induction false} StartedStaysActive(inputs: seq<Input>, k: ProcessKey, first: nat)
    requires Exact(k) && StopsFirst(inputs, k.pid, first)
    ensures Reported(inputs, ProcessStart, k) && !Reported(inputs, ProcessStop, k) ==> IsActive(Run(inputs), k)
    ensures |inputs| <= first ==> NoneActive(Run(inputs))
  {
    if inputs == [] {
    } else {
      var n := |inputs| - 1;
      var before := inputs[..n];
      RunStep(inputs);
      hide Run, AddInput, MergeEvent, HasRecord, IsActive, Consistent, NoneActive, Dropped;
      StartedStaysActive(before, k, if first <= n then first else n);
      IdentityHistory(before, k);
      RunConsistent(before);
      ReportedExtends(inputs, ProcessStart, k);
      ReportedExtends(inputs, ProcessStop, k);
      AddStep(Run(before), inputs[n], k);
      if n < first {
        StopOfNothing(Run(before), inputs[n], k.pid);
        assert !Reported(inputs, ProcessStart, k);
      }
    }
  }

  /** An identity is active at the end of a run iff some start and no stop of it was processed,
      in whatever order and however often, provided no stop of its PID lacks the creation time. */
  lemma ActiveIffStartedNotStopped(inputs: seq<Input>, k: ProcessKey)
    requires Exact(k) && StopTimesKnown(inputs, k.pid)
    ensures k in ActiveKeys(Run(inputs)) <==>
      Reported(inputs, ProcessStart, k) && !Reported(inputs, ProcessStop, k)
  {
    hide Run, Reported;
    IdentityHistory(inputs, k);
    StartedStaysActive(inputs, k, 0);
  }

  // ---- what the log can contain ----

  /** Process events of one identity: at most a start and a later stop. */
  ghost predicate LogOrdered(log: seq<Event>) {
    forall i, j | 0 <= i < j < |log| && SameIdentity(log[i], log[j]) ::
      log[i].kind == ProcessStart && log[j].kind == ProcessStop
  }

  predicate SameIdentity(a: Event, b: Event) {
    IsProcessEvent(a) && IsProcessEvent(b) && a.process == b.process && Exact(a.process)
  }

  /** The identity of a logged process event has a record, inactive once its stop is logged. */
  ghost predicate LogBacked(s: StoreState) {
    forall i :: 0 <= i < |s.events| && IsProcessEvent(s.events[i]) && Exact(s.events[i].process) ==>
      Backed(s, s.events[i])
  }

  ghost predicate Backed(s: StoreState, e: Event) {
    exists j ::
      0 <= j < |s.processes| && s.processes[j].key == e.process && (e.kind.ProcessStop? ==> !s.processes[j].active)
  }

  lemma BackedExtends(s: StoreState, t: StoreState, e: Event)
    requires Exact(e.process) && Backed(s, e) && Extends(s, t)
    ensures Backed(t, e)
  {
  }

  /** A process event that gets past the merge finds its identity unrecorded, or still active
      and only started. */
  lemma ProceedMeansNew(s: StoreState, e: Event, memory: bool, i: nat)
    requires IdentitiesUnique(s.processes) && LogBacked(s) && i < |s.events|
    requires SameIdentity(s.events[i], e) && MergeEvent(s, e, memory).Proceed?
    ensures s.events[i].kind == ProcessStart && e.kind == ProcessStop
  {
  }

  lemma ProceedBacks(s: StoreState, e: Event, memory: bool)
    requires IsProcessEvent(e) && Exact(e.process) && MergeEvent(s, e, memory).Proceed?
    ensures Backed(MergeEvent(s, e, memory).state, e)
  {
    var t := MergeEvent(s, e, memory).state;
    match FindProcess(s.processes, e.process)
    case None => assert t.processes[|s.processes|].key == e.process;
    case Some(i) => assert t.processes[i].key == e.process;
  }

  lemma MergeLog(s: StoreState, e: Event, memory: bool)
    ensures MergeEvent(s, e, memory).state.events == s.events
  {
    hide Capacity.Reserve;
  }

  lemma AddKeepsLog(s: StoreState, x: Input)
    requires Consistent(s) && LogOrdered(s.events) && LogBacked(s)
    ensures LogOrdered(AddInput(s, x).state.events) && LogBacked(AddInput(s, x).state)
  {
    hide Capacity.Reserve;
    hide MergeEvent;
    var m := MergeEvent(s, x.event, x.recordMemory);
    var t := AddInput(s, x).state;
    MergeExtends(s, x.event, x.recordMemory);
    MergeLog(s, x.event, x.recordMemory);
    forall i | 0 <= i < |s.events| && IsProcessEvent(s.events[i]) && Exact(s.events[i].process)
      ensures Backed(t, t.events[i])
    {
      BackedExtends(s, t, s.events[i]);
    }
    if |t.events| > |s.events| {
      var e := t.events[|s.events|];
      if IsProcessEvent(e) && Exact(e.process) {
        ProceedBacks(s, x.event, x.recordMemory);
        assert Backed(t, e);
      }
      forall i | 0 <= i < |s.events| && SameIdentity(s.events[i], e)
        ensures s.events[i].kind == ProcessStart && e.kind == ProcessStop
      {
        ProceedMeansNew(s, x.event, x.recordMemory, i);
      }
    }
  }

  /** Over any run each exact identity has at most one accepted start and at most one accepted
      stop in the log, and never a start after its stop. */
  lemma {:induction false} LogOrderedAlways(inputs: seq<Input>)
    ensures LogOrdered(Run(inputs).events) && LogBacked(Run(inputs))
  {
    if inputs == [] {
    } else {
      RunStep(inputs);
      hide *;
      LogOrderedAlways(inputs[..|inputs| - 1]);
      RunConsistent(inputs[..|inputs| - 1]);
      AddKeepsLog(Run(inputs[..|inputs| - 1]), inputs[|inputs| - 1]);
    }
  }

  // ---- counters ----

  function Stored(log: seq<Event>, kind: EventType): nat {
    if log == [] then 0
    else Stored(log[..|log| - 1], kind) + if log[|log| - 1].kind == kind then 1 else 0
  }

  /** Calls of this type that counted the event and then failed to store it. */
  function Lost(inputs: seq<Input>, kind: EventType): nat {
    if inputs == [] then 0
    else
      var n := |inputs| - 1;
      Lost(inputs[..n], kind) +
      if inputs[n].event.kind == kind && !AddInput(Run(inputs[..n]), inputs[n]).ok then 1 else 0
  }

  lemma IncrementWraps(total: nat)
    ensures Increment(Wrap(total)) == Wrap(total + 1)
  {
  }

  /** One call, as the log and the counters see it. */
  lemma AddCounts(s: StoreState, x: Input)
    ensures var r := AddInput(s, x);
      && r.state.networkCount == (if x.event.kind.Network? then Increment(s.networkCount) else s.networkCount)
      && r.state.alertCount == (if x.event.kind.Alert? then Increment(s.alertCount) else s.alertCount)
      && r.state.events == (if r.accepted then s.events + [r.event] else s.events)
      && r.event.kind == x.event.kind
      && (!IsProcessEvent(x.event) ==> r.ok == r.accepted)
  {
    hide Capacity.Reserve;
    hide FindProcess;
  }

  lemma StoredAppend(log: seq<Event>, e: Event, kind: EventType)
    ensures Stored(log + [e], kind) == Stored(log, kind) + if e.kind == kind then 1 else 0
  {
  }

  /** `s` counts its stored events of both types, and this many that were lost. */
  predicate Counts(s: StoreState, lostNetwork: nat, lostAlerts: nat) {
    && s.networkCount == Wrap(Stored(s.events, Network) + lostNetwork)
    && s.alertCount == Wrap(Stored(s.events, Alert) + lostAlerts)
  }

  lemma CountsStep(s: StoreState, x: Input, network: nat, alerts: nat)
    requires Counts(s, network, alerts)
    ensures var r := AddInput(s, x);
      Counts(r.state,
             network + if x.event.kind.Network? && !r.ok then 1 else 0,
             alerts + if x.event.kind.Alert? && !r.ok then 1 else 0)
  {
    hide AddInput, Increment, Wrap, Stored;
    AddCounts(s, x);
    IncrementWraps(Stored(s.events, Network) + network);
    IncrementWraps(Stored(s.events, Alert) + alerts);
    var r := AddInput(s, x);
    StoredAppend(s.events, r.event, Network);
    StoredAppend(s.events, r.event, Alert);
  }

  /** The network and alert counters count the stored events of their type and the ones that
      failed in reserve_events, modulo 2^64. */
  lemma {:induction false} CountersCount(inputs: seq<Input>)
    ensures Counts(Run(inputs), Lost(inputs, Network), Lost(inputs, Alert))
  {
    if inputs == [] {
      assert Wrap(0) == 0;
    } else {
      RunStep(inputs);
      hide Run, AddInput, Counts;
      var n := |inputs| - 1;
      CountersCount(inputs[..n]);
      CountsStep(Run(inputs[..n]), inputs[n], Lost(inputs[..n], Network), Lost(inputs[..n], Alert));
    }
  }

  // ---- the cost of growing ----

  /** Elements copied by the reallocations of the event array over a run: a reallocation moves
      at most the whole old block. */
  function MovedEvents(inputs: seq<Input>): nat {
    if inputs == [] then 0
    else
      var before := inputs[..|inputs| - 1];
      MovedEvents(before) + MovedBy(Run(before).eventCapacity, Run(inputs).eventCapacity)
  }

  function MovedRecords(inputs: seq<Input>): nat {
    if inputs == [] then 0
    else
      var before := inputs[..|inputs| - 1];
      MovedRecords(before) + MovedBy(Run(before).processCapacity, Run(inputs).processCapacity)
  }

  /** The bookkeeping of one growing array. */
  predicate Amortised(moved: nat, capacity: nat, count: nat, initial: nat) {
    && count <= capacity
    && (if capacity == 0 then moved == 0
        else moved + initial == capacity && (capacity > initial ==> 2 * count > capacity))
  }

  lemma ReserveAmortised(moved: nat, capacity: nat, count: nat, initial: nat, size: nat, memory: bool)
    requires initial > 0 && size > 0 && Amortised(moved, capacity, count, initial)
    ensures var r := Capacity.Reserve(capacity, count + 1, initial, size, memory);
      r.ok ==> Amortised(moved + MovedBy(capacity, r.capacity), r.capacity, count + 1, initial)
  {
  }

  /** One call, as the event array sees it. */
  lemma AddGrowsEvents(s: StoreState, x: Input)
    ensures var t := AddInput(s, x).state; var r := ReserveEvent(s, x.eventMemory);
      if |t.events| == |s.events| then t.eventCapacity == s.eventCapacity
      else r.ok && t.eventCapacity == r.capacity && |t.events| == |s.events| + 1
  {
    hide Capacity.Reserve, FindProcess, NewRecord, Updated;
  }

  /** One call, as the record array sees it. */
  lemma AddGrowsRecords(s: StoreState, x: Input)
    ensures var t := AddInput(s, x).state; var r := ReserveRecord(s, x.recordMemory);
      if |t.processes| == |s.processes| then t.processCapacity == s.processCapacity
      else r.ok && t.processCapacity == r.capacity && |t.processes| == |s.processes| + 1
  {
    hide Capacity.Reserve, FindProcess, NewRecord, Updated;
  }

  predicate Grown(s: StoreState, movedEvents: nat, movedRecords: nat) {
    && Amortised(movedEvents, s.eventCapacity, |s.events|, FIRST_EVENTS)
    && Amortised(movedRecords, s.processCapacity, |s.processes|, FIRST_RECORDS)
  }

  function MovedBy(before: nat, after: nat): nat { if after != before then before else 0 }

  lemma GrownStep(s: StoreState, x: Input, movedEvents: nat, movedRecords: nat)
    requires Grown(s, movedEvents, movedRecords)
    ensures var t := AddInput(s, x).state;
      Grown(t, movedEvents + MovedBy(s.eventCapacity, t.eventCapacity),
            movedRecords + MovedBy(s.processCapacity, t.processCapacity))
  {
    hide AddInput, Capacity.Reserve;
    AddGrowsEvents(s, x);
    AddGrowsRecords(s, x);
    ReserveAmortised(movedEvents, s.eventCapacity, |s.events|, FIRST_EVENTS, EVENT_BYTES, x.eventMemory);
    ReserveAmortised(movedRecords, s.processCapacity, |s.processes|, FIRST_RECORDS, RECORD_BYTES, x.recordMemory);
  }

  lemma {:induction false} GrownAlways(inputs: seq<Input>)
    ensures Grown(Run(inputs), MovedEvents(inputs), MovedRecords(inputs))
  {
    if inputs == [] {
    } else {
      RunStep(inputs);
      hide Run, AddInput, Grown;
      var before := inputs[..|inputs| - 1];
      GrownAlways(before);
      GrownStep(Run(before), inputs[|inputs| - 1], MovedEvents(before), MovedRecords(before));
    }
  }

  /** All reallocations of a run together move fewer than twice as many elements as are stored. */
  lemma GrowthIsLinear(inputs: seq<Input>)
    ensures MovedEvents(inputs) <= 2 * |Run(inputs).events|
    ensures MovedRecords(inputs) <= 2 * |Run(inputs).processes|
  {
    GrownAlways(inputs);
    hide Run;
  }
}
