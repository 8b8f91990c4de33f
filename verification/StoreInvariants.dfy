/** What every call of event_store_add keeps, whatever the events and the allocator do. */
module StoreInvariants {
  import opened WideStrings
  import opened Events
  import opened StoreModel
  import Capacity

  function CountActive(ps: seq<ProcessRecord>): nat {
    if ps == [] then 0
    else CountActive(ps[..|ps| - 1]) + if ps[|ps| - 1].active then 1 else 0
  }

  lemma {:induction false} CountUpdate(ps: seq<ProcessRecord>, i: nat, r: ProcessRecord)
    requires i < |ps|
    ensures CountActive(ps[i := r]) ==
      CountActive(ps) - (if ps[i].active then 1 else 0) + (if r.active then 1 else 0)
  {
    var n := |ps| - 1;
    if i == n {
      assert ps[i := r][..n] == ps[..n];
    } else {
      CountUpdate(ps[..n], i, r);
      assert ps[i := r][..n] == ps[..n][i := r];
    }
  }

  lemma CountAppend(ps: seq<ProcessRecord>, r: ProcessRecord)
    ensures CountActive(ps + [r]) == CountActive(ps) + if r.active then 1 else 0
  {
  }

  lemma {:induction false} CountPositive(ps: seq<ProcessRecord>, i: nat)
    requires i < |ps| && ps[i].active
    ensures CountActive(ps) > 0
  {
    if i == |ps| - 1 {
    } else {
      CountPositive(ps[..|ps| - 1], i);
    }
  }

  /** No two records carry the same nonzero PID and nonzero creation time. */
  ghost predicate IdentitiesUnique(ps: seq<ProcessRecord>) {
    forall i, j :: 0 <= i < j < |ps| && Exact(ps[i].key) ==> ps[i].key != ps[j].key
  }

  /** Active records with a nonzero PID do not match each other, even through the wildcard. */
  ghost predicate ActiveSeparated(ps: seq<ProcessRecord>) {
    forall i, j | 0 <= i < |ps| && 0 <= j < |ps| && i != j && ps[i].active && ps[j].active ::
      ps[i].key.pid != 0 ==> !KeysMatch(ps[i].key, ps[j].key)
  }

  ghost predicate CapacitiesSound(s: StoreState) {
    && |s.events| <= s.eventCapacity && |s.processes| <= s.processCapacity
    && Capacity.Sound(s.eventCapacity, FIRST_EVENTS, EVENT_BYTES)
    && Capacity.Sound(s.processCapacity, FIRST_RECORDS, RECORD_BYTES)
  }

  /** Sequence numbers count the log from 1, without wrapping. */
  ghost predicate Numbered(s: StoreState) {
    s.nextSequence == |s.events| + 1 && Sequenced(s.events)
  }

  ghost predicate Consistent(s: StoreState) {
    && IdentitiesUnique(s.processes)
    && ActiveSeparated(s.processes)
    && s.activeCount == CountActive(s.processes)
    && CapacitiesSound(s)
    && Numbered(s)
  }

  // ---- the record array ----

  lemma AppendRecord(ps: seq<ProcessRecord>, r: ProcessRecord)
    requires IdentitiesUnique(ps) && ActiveSeparated(ps) && FindProcess(ps, r.key).None?
    ensures IdentitiesUnique(ps + [r]) && ActiveSeparated(ps + [r])
  {
  }

  /** A merge into the record that lookup returned: its key may gain a time, never lose one. */
  lemma MergeRecord(ps: seq<ProcessRecord>, e: Event, i: nat, r: ProcessRecord)
    requires IdentitiesUnique(ps) && ActiveSeparated(ps) && FindProcess(ps, e.process) == Some(i)
    requires r.key == Updated(ps[i], e).key && (r.active ==> ps[i].active)
    ensures IdentitiesUnique(ps[i := r]) && ActiveSeparated(ps[i := r])
  {
  }

  /** A process event whose process has no record appends one, active or not. */
  lemma AppendedConsistent(s: StoreState, t: StoreState, r: ProcessRecord, memory: bool)
    requires Consistent(s) && FindProcess(s.processes, r.key).None? && ReserveRecord(s, memory).ok
    requires t == s.(processes := s.processes + [r], processCapacity := ReserveRecord(s, memory).capacity,
                     activeCount := s.activeCount + if r.active then 1 else 0)
    ensures Consistent(t)
  {
    hide Capacity.Reserve, Capacity.Sound, FindProcess;
    Capacity.ReserveSound(s.processCapacity, |s.processes| + 1, FIRST_RECORDS, RECORD_BYTES, memory);
    AppendRecord(s.processes, r);
    CountAppend(s.processes, r);
  }

  /** A process event that finds record `i` merges into it and may deactivate it. */
  lemma MergedConsistent(s: StoreState, t: StoreState, e: Event, i: nat, r: ProcessRecord)
    requires Consistent(s) && FindProcess(s.processes, e.process) == Some(i)
    requires r.key == Updated(s.processes[i], e).key && (r.active ==> s.processes[i].active)
    requires t.processes == s.processes[i := r] && t == s.(processes := t.processes, activeCount := t.activeCount)
    requires t.activeCount + (if s.processes[i].active then 1 else 0) == s.activeCount + if r.active then 1 else 0
    ensures Consistent(t)
  {
    hide FindProcess, Capacity.Sound, Updated;
    MergeRecord(s.processes, e, i, r);
    CountUpdate(s.processes, i, r);
  }

  lemma StartConsistent(s: StoreState, e: Event, memory: bool)
    requires Consistent(s)
    ensures Consistent(MergeStart(s, e, memory).state)
  {
    hide FindProcess, ReserveRecord, Consistent, Updated, NewRecord;
    var t := MergeStart(s, e, memory).state;
    match FindProcess(s.processes, e.process)
    case None =>
      if ReserveRecord(s, memory).ok {
        AppendedConsistent(s, t, NewRecord(e).(active := true, startTime := e.timestamp), memory);
      }
    case Some(i) => MergedConsistent(s, t, e, i, Updated(s.processes[i], e));
  }

  lemma StopConsistent(s: StoreState, e: Event, memory: bool)
    requires Consistent(s)
    ensures Consistent(MergeStop(s, e, memory).state)
  {
    hide FindProcess, ReserveRecord, Consistent, Updated, NewRecord;
    var t := MergeStop(s, e, memory).state;
    match FindProcess(s.processes, e.process)
    case None =>
      if ReserveRecord(s, memory).ok {
        AppendedConsistent(s, t, NewRecord(e).(stopTime := e.timestamp), memory);
      }
    case Some(i) =>
      if s.processes[i].active {
        ActiveCounted(s, i);
        MergedConsistent(s, t, e, i, Updated(s.processes[i], e).(active := false, stopTime := e.timestamp));
      }
  }

  lemma ActiveCounted(s: StoreState, i: nat)
    requires Consistent(s) && i < |s.processes| && s.processes[i].active
    ensures s.activeCount > 0
  {
    hide IdentitiesUnique, ActiveSeparated, CapacitiesSound, Numbered;
    CountPositive(s.processes, i);
  }

  lemma MergeConsistent(s: StoreState, e: Event, memory: bool)
    requires Consistent(s)
    ensures Consistent(MergeEvent(s, e, memory).state)
  {
    match e.kind
    case ProcessStart => StartConsistent(s, e, memory);
    case ProcessStop => StopConsistent(s, e, memory);
    case _ =>
  }

  lemma AppendConsistent(s: StoreState, e: Event, memory: bool)
    requires Consistent(s)
    ensures Consistent(Append(s, e, memory).state)
  {
    Capacity.ReserveSound(s.eventCapacity, |s.events| + 1, FIRST_EVENTS, EVENT_BYTES, memory);
    var r := ReserveEvent(s, memory);
    if r.ok {
      Capacity.BytesFit(r.capacity, EVENT_BYTES);
      assert r.capacity <= Capacity.SIZE_MAX / EVENT_BYTES;
    }
  }

  lemma AddConsistent(s: StoreState, i: Input)
    requires Consistent(s)
    ensures Consistent(AddInput(s, i).state)
  {
    MergeConsistent(s, i.event, i.recordMemory);
    var m := MergeEvent(s, i.event, i.recordMemory);
    if m.Proceed? {
      AppendConsistent(m.state, i.event, i.eventMemory);
    }
  }

  /** Every reachable store state is consistent, after any events and any allocation failures. */
  lemma {:induction false} RunConsistent(inputs: seq<Input>)
    ensures Consistent(Run(inputs))
  {
    if inputs == [] {
    } else {
      RunStep(inputs);
      hide *;
      RunConsistent(inputs[..|inputs| - 1]);
      AddConsistent(Run(inputs[..|inputs| - 1]), inputs[|inputs| - 1]);
    }
  }

  /** The guard `active_process_count > 0` of a stop never saves the counter: when a record is
      active the count is positive. */
  lemma StopGuardIdle(inputs: seq<Input>, key: ProcessKey)
    requires var f := FindProcess(Run(inputs).processes, key); f.Some? && Run(inputs).processes[f.value].active
    ensures Run(inputs).activeCount > 0
  {
    RunConsistent(inputs);
    CountPositive(Run(inputs).processes, FindProcess(Run(inputs).processes, key).value);
  }

  // ---- what later calls never change ----

  /** A record keeps its PID and its time once known, and never becomes active again. */
  ghost predicate Succeeds(r: ProcessRecord, later: ProcessRecord) {
    && later.key.pid == r.key.pid
    && (r.key.creationTime != 0 ==> later.key == r.key)
    && (!r.active ==> !later.active)
  }

  ghost predicate Extends(s: StoreState, t: StoreState) {
    && s.events <= t.events
    && |s.processes| <= |t.processes|
    && forall i :: 0 <= i < |s.processes| ==> Succeeds(s.processes[i], t.processes[i])
  }

  lemma MergeExtends(s: StoreState, e: Event, memory: bool)
    ensures Extends(s, MergeEvent(s, e, memory).state)
  {
    hide Capacity.Reserve, FindProcess;
    var found := FindProcess(s.processes, e.process);
    if found.Some? {
      var r := s.processes[found.value];
      assert Succeeds(r, Updated(r, e));
      hide Updated;
    }
  }

  lemma AddExtends(s: StoreState, i: Input)
    ensures Extends(s, AddInput(s, i).state)
  {
    MergeExtends(s, i.event, i.recordMemory);
  }

  /** Over any run the log only grows, a record's PID and nonzero time never change, and an
      inactive record stays inactive. */
  lemma {:induction false} RunExtends(inputs: seq<Input>, n: nat)
    requires n <= |inputs|
    ensures Extends(Run(inputs[..n]), Run(inputs))
  {
    if n == |inputs| {
      hide Run;
      assert inputs[..n] == inputs;
    } else {
      var last := |inputs| - 1;
      RunStep(inputs);
      hide Run, AddInput;
      assert inputs[..last][..n] == inputs[..n];
      RunExtends(inputs[..last], n);
      AddExtends(Run(inputs[..last]), inputs[last]);
    }
  }
}
