/** The records of one PID as a small machine (src/event_store.c): which creation times have a record,
    and which of those records are active, an untimed one included. */
module ProcessSlots {
  import opened WideStrings
  import opened Events
  import opened StoreModel
  import opened StoreInvariants
  import opened StoreHistory

  /** `known`: the nonzero times that have a record.  `running`: the times of the active records, 0 for
      an active record without one. */
  datatype Slot = Slot(known: set<Qword>, running: set<Qword>)

  const EMPTY_SLOT := Slot({}, {})

  ghost function SlotOf(s: StoreState, pid: Dword): Slot {
    var ps := s.processes;
    Slot(set i | 0 <= i < |ps| && ps[i].key.pid == pid && ps[i].key.creationTime != 0 :: ps[i].key.creationTime,
         set i | 0 <= i < |ps| && ps[i].key.pid == pid && ps[i].active :: ps[i].key.creationTime)
  }

  /** An untimed active record is the only active one; the other active records have known times. */
  ghost predicate WellFormed(slot: Slot) {
    (0 in slot.running ==> slot.running == {0}) && slot.running - {0} <= slot.known && 0 !in slot.known
  }

  lemma SlotWellFormed(s: StoreState, pid: Dword)
    requires pid != 0 && ActiveSeparated(s.processes)
    ensures WellFormed(SlotOf(s, pid))
  {
  }

  /** A start: nothing for a known time, the untimed active record takes the time over, and otherwise
      there is a new active record - without a time only if nothing is active. */
  function Started(slot: Slot, time: Qword): Slot {
    if time == 0 then (if slot.running != {} then slot else slot.(running := {0}))
    else if time in slot.known then slot
    else Slot(slot.known + {time}, slot.running - {0} + {time})
  }

  /** A stop with a time: its record, or else the untimed active one, becomes inactive. */
  function Stopped(slot: Slot, time: Qword): Slot
    requires time != 0
  {
    if time in slot.known then slot.(running := slot.running - {time})
    else Slot(slot.known + {time}, slot.running - {0})
  }

  /** Any stop; without a time it hits one of the active records, if there is one. */
  ghost predicate StopsTo(slot: Slot, time: Qword, t: Slot) {
    if time != 0 then t == Stopped(slot, time)
    else if slot.running == {} then t == slot
    else exists r :: r in slot.running && t == slot.(running := slot.running - {r})
  }

  /** One process event of the PID. */
  ghost predicate SlotStep(slot: Slot, e: Event, t: Slot) {
    if e.kind.ProcessStart? then t == Started(slot, e.process.creationTime)
    else StopsTo(slot, e.process.creationTime, t)
  }

  function Known(time: Qword): set<Qword> { if time == 0 then {} else {time} }

  /** Writing the record at `i`, or adding it there. */
  lemma WriteSlot(s: StoreState, t: StoreState, i: nat)
    requires ActiveSeparated(s.processes) && i < |t.processes| && t.processes[i].key.pid != 0
    requires |s.processes| <= |t.processes| && |t.processes| == if i < |s.processes| then |s.processes| else i + 1
    requires i <= |s.processes| && forall j :: 0 <= j < |s.processes| && j != i ==> t.processes[j] == s.processes[j]
    requires i < |s.processes| ==>
      && t.processes[i].key.pid == s.processes[i].key.pid
      && (t.processes[i].key.creationTime == s.processes[i].key.creationTime || s.processes[i].key.creationTime == 0)
    ensures var r := t.processes[i]; var (a, b) := (SlotOf(s, r.key.pid), SlotOf(t, r.key.pid));
      && b.known == a.known + Known(r.key.creationTime)
      && b.running ==
           (if i < |s.processes| && s.processes[i].active then a.running - {s.processes[i].key.creationTime}
            else a.running) +
           (if r.active then {r.key.creationTime} else {})
  {
  }

  // ---- one call ----

  /** What a lookup finds, in terms of the slot. */
  lemma LookupSlot(s: StoreState, key: ProcessKey)
    requires IdentitiesUnique(s.processes) && key.pid != 0
    ensures var (ps, slot, time) := (s.processes, SlotOf(s, key.pid), key.creationTime);
      match FindProcess(ps, key)
      case None => time !in slot.known && 0 !in slot.running && (time == 0 ==> slot.running == {})
      case Some(i) =>
        var found := ps[i].key.creationTime;
        && ps[i].key.pid == key.pid && (found != 0 ==> found in slot.known)
        && (if ps[i].active then found in slot.running else time != 0 && found == time && time !in slot.running)
        && (time != 0 ==> found == time || (found == 0 && time !in slot.known))
  {
  }

  lemma StartSlot(s: StoreState, e: Event, memory: bool)
    requires IdentitiesUnique(s.processes) && ActiveSeparated(s.processes) && e.process.pid != 0
    requires !MergeStart(s, e, memory).NoMemory?
    ensures SlotOf(MergeStart(s, e, memory).state, e.process.pid) ==
      Started(SlotOf(s, e.process.pid), e.process.creationTime)
  {
    hide ReserveRecord, FindProcess, SlotOf, IdentitiesUnique, ActiveSeparated;
    var t := MergeStart(s, e, memory).state;
    LookupSlot(s, e.process);
    match FindProcess(s.processes, e.process)
    case None => WriteSlot(s, t, |s.processes|);
    case Some(i) => WriteSlot(s, t, i);
  }

  lemma StopSlot(s: StoreState, e: Event, memory: bool)
    requires IdentitiesUnique(s.processes) && ActiveSeparated(s.processes) && e.process.pid != 0
    requires e.kind.ProcessStop? && !MergeStop(s, e, memory).NoMemory?
    ensures SlotStep(SlotOf(s, e.process.pid), e, SlotOf(MergeStop(s, e, memory).state, e.process.pid))
  {
    hide ReserveRecord, FindProcess, SlotOf, IdentitiesUnique, ActiveSeparated;
    var t := MergeStop(s, e, memory).state;
    LookupSlot(s, e.process);
    match FindProcess(s.processes, e.process)
    case None => WriteSlot(s, t, |s.processes|);
    case Some(i) =>
      if s.processes[i].active {
        WriteSlot(s, t, i);
      }
  }

  /** Whether the event concerns the records of this PID. */
  predicate Concerns(e: Event, pid: Dword) { IsProcessEvent(e) && e.process.pid == pid }

  /** What one event of a run may do to the slot of the PID. */
  ghost predicate Moves(a: Slot, e: Event, pid: Dword, b: Slot) {
    if Concerns(e, pid) then SlotStep(a, e, b) else a == b
  }

  /** A call touches at most one record, one of the event's PID. */
  lemma OtherSlot(s: StoreState, e: Event, memory: bool, pid: Dword)
    requires pid != 0 && !Concerns(e, pid)
    ensures SlotOf(MergeEvent(s, e, memory).state, pid) == SlotOf(s, pid)
  {
    hide ReserveRecord, SlotOf;
    var t := MergeEvent(s, e, memory).state;
    match FindProcess(s.processes, e.process)
    case None => UntouchedSlot(s, t, |s.processes|, pid);
    case Some(i) => UntouchedSlot(s, t, i, pid);
  }

  lemma UntouchedSlot(s: StoreState, t: StoreState, i: nat, pid: Dword)
    requires |s.processes| <= |t.processes| <= |s.processes| + 1
    requires forall j :: 0 <= j < |t.processes| && j != i ==> j < |s.processes| && t.processes[j] == s.processes[j]
    requires t.processes != s.processes ==>
      && i < |t.processes| && t.processes[i].key.pid != pid
      && (i < |s.processes| ==> s.processes[i].key.pid != pid)
    ensures SlotOf(t, pid) == SlotOf(s, pid)
  {
  }

  /** One call moves the slot of the event's PID by one step, and no other. */
  lemma SlotMoves(s: StoreState, x: Input, pid: Dword)
    requires Consistent(s) && pid != 0 && !MergeEvent(s, x.event, x.recordMemory).NoMemory?
    ensures Moves(SlotOf(s, pid), x.event, pid, SlotOf(AddInput(s, x).state, pid))
  {
    hide MergeStart, MergeStop, AddInput, CapacitiesSound, Numbered, IdentitiesUnique, ActiveSeparated, SlotStep;
    AddMerges(s, x);
    SameSlot(MergeEvent(s, x.event, x.recordMemory).state, AddInput(s, x).state, pid);
    if !Concerns(x.event, pid) {
      OtherSlot(s, x.event, x.recordMemory, pid);
    } else if x.event.kind.ProcessStart? {
      StartSlot(s, x.event, x.recordMemory);
      StartIsStep(SlotOf(s, pid), x.event);
    } else {
      StopSlot(s, x.event, x.recordMemory);
    }
  }

  lemma SameSlot(s: StoreState, t: StoreState, pid: Dword)
    requires s.processes == t.processes
    ensures SlotOf(s, pid) == SlotOf(t, pid)
  {
  }

  lemma StartIsStep(slot: Slot, e: Event)
    requires e.kind.ProcessStart?
    ensures SlotStep(slot, e, Started(slot, e.process.creationTime))
  {
  }

  // ---- a run ----

  /** The events of this PID among `events` can take the slot from `a` to `b`. */
  ghost predicate Reaches(a: Slot, events: seq<Event>, pid: Dword, b: Slot)
    decreases events
  {
    if events == [] then a == b
    else exists m :: Moves(a, events[0], pid, m) && Reaches(m, events[1..], pid, b)
  }

  lemma {:induction false} ReachesAppend(a: Slot, events: seq<Event>, e: Event, pid: Dword, m: Slot, b: Slot)
    requires Reaches(a, events, pid, m) && Moves(m, e, pid, b)
    ensures Reaches(a, events + [e], pid, b)
    decreases events
  {
    hide Moves;
    var all := events + [e];
    if events == [] {
      assert all[1..] == [];
      assert Moves(a, all[0], pid, b) && Reaches(b, all[1..], pid, b);
    } else {
      var next :| Moves(a, events[0], pid, next) && Reaches(next, events[1..], pid, m);
      ReachesAppend(next, events[1..], e, pid, m, b);
      assert all[1..] == events[1..] + [e];
    }
  }

  lemma {:induction false} ReachesConcat(a: Slot, x: seq<Event>, y: seq<Event>, pid: Dword, b: Slot)
    returns (m: Slot)
    requires Reaches(a, x + y, pid, b)
    ensures Reaches(a, x, pid, m) && Reaches(m, y, pid, b)
    decreases x
  {
    hide Moves;
    if x == [] {
      assert x + y == y;
      m := a;
    } else {
      assert (x + y)[1..] == x[1..] + y;
      var next :| Moves(a, (x + y)[0], pid, next) && Reaches(next, (x + y)[1..], pid, b);
      m := ReachesConcat(next, x[1..], y, pid, b);
    }
  }

  /** What the calls of a run after the first `n` do to the records of one PID. */
  lemma {:induction false} RunReaches(inputs: seq<Input>, n: nat, pid: Dword)
    requires pid != 0 && n <= |inputs| && AllKept(inputs)
    ensures Reaches(SlotOf(Run(inputs[..n]), pid), EventsOf(inputs[n..]), pid, SlotOf(Run(inputs), pid))
    decreases |inputs|
  {
    hide Run, AllKept, SlotOf, Moves, MergeEvent, AddInput, Consistent;
    if n == |inputs| {
      assert inputs[..n] == inputs;
    } else {
      var (before, x) := (inputs[..|inputs| - 1], inputs[|inputs| - 1]);
      RunStep(inputs);
      KeptBefore(inputs);
      RunReaches(before, n, pid);
      RunConsistent(before);
      SlotMoves(Run(before), x, pid);
      assert before[..n] == inputs[..n];
      assert EventsOf(inputs[n..]) == EventsOf(before[n..]) + [x.event];
      ReachesAppend(SlotOf(Run(before[..n]), pid), EventsOf(before[n..]), x.event, pid, SlotOf(Run(before), pid),
                    SlotOf(Run(inputs), pid));
    }
  }

  lemma WholeRunReaches(inputs: seq<Input>, pid: Dword)
    requires pid != 0 && AllKept(inputs)
    ensures Reaches(EMPTY_SLOT, EventsOf(inputs), pid, SlotOf(Run(inputs), pid))
  {
    hide AllKept, Reaches;
    RunReaches(inputs, 0, pid);
    assert inputs[0..] == inputs && SlotOf(Run(inputs[..0]), pid) == EMPTY_SLOT;
  }

  // ---- the active keys, untimed ones included ----

  /** The keys of the active records; records of PID 0, which no lookup finds, aside. */
  ghost function Running(s: StoreState): set<ProcessKey> {
    set i | 0 <= i < |s.processes| && s.processes[i].active && s.processes[i].key.pid != 0 :: s.processes[i].key
  }

  lemma RunningSlot(s: StoreState, k: ProcessKey)
    requires k.pid != 0
    ensures k in Running(s) <==> k.creationTime in SlotOf(s, k.pid).running
    ensures Exact(k) ==> (k in Running(s) <==> k in ActiveKeys(s))
  {
  }

  lemma NoneOfPidZero(s: StoreState, k: ProcessKey)
    requires k.pid == 0
    ensures k !in Running(s)
  {
  }

  lemma PidAdded(s: StoreState, x: Input)
    requires forall i :: 0 <= i < |s.processes| ==> s.processes[i].key.pid != 0
    requires IsProcessEvent(x.event) ==> x.event.process.pid != 0
    ensures var t := AddInput(s, x).state; forall i :: 0 <= i < |t.processes| ==> t.processes[i].key.pid != 0
  {
    hide ReserveRecord, ReserveEvent, FindProcess;
  }

  lemma {:induction false} PidsReported(inputs: seq<Input>)
    requires forall i :: 0 <= i < |inputs| && IsProcessEvent(inputs[i].event) ==> inputs[i].event.process.pid != 0
    ensures forall i :: 0 <= i < |Run(inputs).processes| ==> Run(inputs).processes[i].key.pid != 0
  {
    if inputs == [] {
    } else {
      RunStep(inputs);
      hide Run, AddInput;
      PidsReported(inputs[..|inputs| - 1]);
      PidAdded(Run(inputs[..|inputs| - 1]), inputs[|inputs| - 1]);
    }
  }

  /** The active count counts them, when no event carries PID 0. */
  lemma RunningCounted(inputs: seq<Input>)
    requires forall i :: 0 <= i < |inputs| && IsProcessEvent(inputs[i].event) ==> inputs[i].event.process.pid != 0
    ensures Run(inputs).activeCount == |Running(Run(inputs))|
  {
    var s := Run(inputs);
    RunConsistent(inputs);
    PidsReported(inputs);
    CountedKeys(s.processes);
    hide Run;
    assert Running(s) == KeysOfActive(s.processes);
  }

  ghost function KeysOfActive(ps: seq<ProcessRecord>): set<ProcessKey> {
    set i | 0 <= i < |ps| && ps[i].active :: ps[i].key
  }

  lemma OneMoreKey(ps: seq<ProcessRecord>)
    requires ps != []
    ensures var (before, r) := (ps[..|ps| - 1], ps[|ps| - 1]);
      KeysOfActive(ps) == KeysOfActive(before) + if r.active then {r.key} else {}
  {
  }

  lemma FreshKey(ps: seq<ProcessRecord>)
    requires ActiveSeparated(ps) && ps != [] && ps[|ps| - 1].active && ps[|ps| - 1].key.pid != 0
    ensures ps[|ps| - 1].key !in KeysOfActive(ps[..|ps| - 1])
  {
  }

  lemma FewerSeparated(ps: seq<ProcessRecord>)
    requires ActiveSeparated(ps) && ps != []
    ensures ActiveSeparated(ps[..|ps| - 1])
  {
  }

  lemma {:induction false} CountedKeys(ps: seq<ProcessRecord>)
    requires ActiveSeparated(ps) && forall i :: 0 <= i < |ps| ==> ps[i].key.pid != 0
    ensures CountActive(ps) == |KeysOfActive(ps)|
  {
    if ps == [] {
    } else {
      hide KeysOfActive, ActiveSeparated;
      CountedKeys(ps[..|ps| - 1]) by {
        FewerSeparated(ps);
      }
      OneMoreKey(ps);
      if ps[|ps| - 1].active {
        FreshKey(ps);
      }
    }
  }
}
