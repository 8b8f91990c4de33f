/** What the process records hold (src/event_store.c), told from the calls of a run: each property of a
    record is the one supplied last among the events that landed in it. */
module RecordContents {
  import opened WideStrings
  import opened Events
  import opened StoreModel
  import opened StoreInvariants
  import opened StoreHistory
  import Capacity

  // ---- which record a call lands in ----

  /** The event finds record `r` under the lookup rule - for a stop, still active - or has it appended. */
  ghost predicate LandsIn(s: StoreState, x: Input, t: StoreState, r: nat) {
    IsProcessEvent(x.event) &&
    match FindProcess(s.processes, x.event.process)
    case Some(i) => r == i && (x.event.kind.ProcessStart? || s.processes[i].active)
    case None => r == |s.processes| < |t.processes|
  }

  ghost predicate Lands(inputs: seq<Input>, i: nat, r: nat)
    requires i < |inputs|
  {
    LandsIn(Run(inputs[..i]), inputs[i], Run(inputs[..i + 1]), r)
  }

  // ---- what an event supplies and a record holds ----

  datatype Property = Name | ParentName | Path | Parent | CreationTime | StopTime

  datatype Content = Text(text: Wide) | Key(key: ProcessKey) | Ticks(ticks: Qword) | Time(time: SystemTime)

  function NonEmpty(text: Wide): Option<Content> { if text == [] then None else Some(Text(text)) }

  function Supplied(e: Event, p: Property): Option<Content> {
    match p
    case Name => NonEmpty(Truncated(e.processName, MAX_PATH))
    case ParentName => NonEmpty(Truncated(e.parentName, MAX_PATH))
    case Path => NonEmpty(Truncated(e.executablePath, MAX_PATH))
    case Parent => if e.parent.pid == 0 then None else Some(Key(e.parent))
    case CreationTime => if e.process.creationTime == 0 then None else Some(Ticks(e.process.creationTime))
    case StopTime => if e.kind.ProcessStop? then Some(Time(e.timestamp)) else None
  }

  /** Only an inactive record has a stop time. */
  function Held(r: ProcessRecord, p: Property): Option<Content> {
    match p
    case Name => NonEmpty(r.name)
    case ParentName => NonEmpty(r.parentName)
    case Path => NonEmpty(r.path)
    case Parent => if r.parent.pid == 0 then None else Some(Key(r.parent))
    case CreationTime => if r.key.creationTime == 0 then None else Some(Ticks(r.key.creationTime))
    case StopTime => if r.active then None else Some(Time(r.stopTime))
  }

  /** A merge takes what the event supplies and keeps the rest; the stop time is not its business. */
  lemma UpdatedHolds(r: ProcessRecord, e: Event, p: Property)
    requires !p.StopTime?
    ensures Held(Updated(r, e), p) == if Supplied(e, p).Some? then Supplied(e, p) else Held(r, p)
  {
  }

  lemma NewHolds(e: Event, p: Property)
    requires !p.StopTime?
    ensures Held(NewRecord(e), p) == Supplied(e, p)
  {
  }

  lemma SamelyHeld(r: ProcessRecord, q: ProcessRecord, p: Property)
    requires !p.StopTime? && q == r.(active := q.active, startTime := q.startTime, stopTime := q.stopTime)
    ensures Held(q, p) == Held(r, p)
  {
  }

  /** What one call does to one record. */
  ghost predicate Moves(s: StoreState, x: Input, t: StoreState, r: nat, p: Property)
    requires r < |t.processes|
  {
    Held(t.processes[r], p) ==
      if LandsIn(s, x, t, r) && Supplied(x.event, p).Some? then Supplied(x.event, p)
      else if r < |s.processes| then Held(s.processes[r], p) else None
  }

  lemma StartHolds(s: StoreState, x: Input, r: nat, p: Property)
    requires x.event.kind.ProcessStart? && r < |MergeStart(s, x.event, x.recordMemory).state.processes|
    ensures Moves(s, x, MergeStart(s, x.event, x.recordMemory).state, r, p)
  {
    hide ReserveRecord, FindProcess, Updated, NewRecord;
    var (e, ps) := (x.event, s.processes);
    if p.StopTime? {
      StopUnsupplied(e);
    } else {
      hide Held, Supplied;
      NewHolds(e, p);
      SamelyHeld(NewRecord(e), NewRecord(e).(active := true, startTime := e.timestamp), p);
      if r < |ps| {
        UpdatedHolds(ps[r], e, p);
      }
    }
  }

  lemma StopUnsupplied(e: Event)
    requires e.kind.ProcessStart?
    ensures Supplied(e, StopTime) == None
    ensures forall r: ProcessRecord :: Held(Updated(r, e), StopTime) == Held(r, StopTime)
  {
  }

  lemma StopHolds(s: StoreState, x: Input, r: nat, p: Property)
    requires x.event.kind.ProcessStop? && r < |MergeStop(s, x.event, x.recordMemory).state.processes|
    ensures Moves(s, x, MergeStop(s, x.event, x.recordMemory).state, r, p)
  {
    hide ReserveRecord, FindProcess, Updated, NewRecord;
    var (e, ps) := (x.event, s.processes);
    if !p.StopTime? {
      hide Held, Supplied;
      NewHolds(e, p);
      SamelyHeld(NewRecord(e), NewRecord(e).(stopTime := e.timestamp), p);
      if r < |ps| {
        UpdatedHolds(ps[r], e, p);
        SamelyHeld(Updated(ps[r], e), Updated(ps[r], e).(active := false, stopTime := e.timestamp), p);
      }
    }
  }

  lemma CallHolds(s: StoreState, x: Input, r: nat, p: Property)
    requires r < |AddInput(s, x).state.processes|
    ensures Moves(s, x, AddInput(s, x).state, r, p)
  {
    hide Held, Supplied, MergeStart, MergeStop, AddInput, FindProcess;
    AddMerges(s, x);
    match x.event.kind
    case ProcessStart => StartHolds(s, x, r, p);
    case ProcessStop => StopHolds(s, x, r, p);
    case _ =>
  }

  // ---- over a run ----

  /** Call `i` landed in the record and supplied the property. */
  ghost predicate Supplies(inputs: seq<Input>, i: nat, r: nat, p: Property)
    requires i < |inputs|
  {
    Lands(inputs, i, r) && Supplied(inputs[i].event, p).Some?
  }

  ghost predicate SuppliesLast(inputs: seq<Input>, i: nat, r: nat, p: Property)
    requires i < |inputs|
  {
    Supplies(inputs, i, r, p) && forall j :: i < j < |inputs| ==> !Supplies(inputs, j, r, p)
  }

  lemma SuppliesBefore(inputs: seq<Input>, n: nat, i: nat, r: nat, p: Property)
    requires i < n <= |inputs|
    ensures Supplies(inputs[..n], i, r, p) <==> Supplies(inputs, i, r, p)
  {
    hide LandsIn, Run, Supplied;
    assert inputs[..n][..i] == inputs[..i] && inputs[..n][..i + 1] == inputs[..i + 1];
  }

  /** The property is the one supplied last, or nobody supplied it. */
  ghost predicate Remembers(inputs: seq<Input>, r: nat, p: Property, held: Option<Content>) {
    match held
    case Some(c) =>
      exists i :: 0 <= i < |inputs| && SuppliesLast(inputs, i, r, p) && Supplied(inputs[i].event, p) == Some(c)
    case None => forall i :: 0 <= i < |inputs| ==> !Supplies(inputs, i, r, p)
  }

  /** One more call. */
  lemma RemembersNext(inputs: seq<Input>, r: nat, p: Property, held: Option<Content>)
    requires inputs != [] && Remembers(inputs[..|inputs| - 1], r, p, held)
    ensures var n := |inputs| - 1;
      Remembers(inputs, r, p, if Supplies(inputs, n, r, p) then Supplied(inputs[n].event, p) else held)
  {
    hide Lands, Supplied;
    var n := |inputs| - 1;
    var before := inputs[..n];
    forall i | 0 <= i < n ensures Supplies(before, i, r, p) <==> Supplies(inputs, i, r, p) {
      SuppliesBefore(inputs, n, i, r, p);
    }
    if Supplies(inputs, n, r, p) {
      assert SuppliesLast(inputs, n, r, p);
    } else if held.Some? {
      var i :| 0 <= i < n && SuppliesLast(before, i, r, p) && Supplied(before[i].event, p) == held;
      assert SuppliesLast(inputs, i, r, p);
    }
  }

  /** After any run every property of a record is the one supplied last among the events that landed in
      it: empty fields never erase a known value, and a property nobody supplied is blank. */
  lemma {:induction false} RecordHolds(inputs: seq<Input>, r: nat, p: Property)
    requires r < |Run(inputs).processes|
    ensures Remembers(inputs, r, p, Held(Run(inputs).processes[r], p))
  {
    if inputs == [] {
    } else {
      var n := |inputs| - 1;
      var (before, x) := (inputs[..n], inputs[n]);
      RunStep(inputs);
      assert inputs[..n + 1] == inputs;
      hide Run, AddInput, LandsIn, Supplied, Held, Remembers;
      CallHolds(Run(before), x, r, p);
      if r < |Run(before).processes| {
        RecordHolds(before, r, p);
        RemembersNext(inputs, r, p, Held(Run(before).processes[r], p));
      } else {
        NoneLanded(inputs, n, r, p);
        RemembersNext(inputs, r, p, None);
      }
    }
  }

  lemma RecordsGrow(inputs: seq<Input>, i: nat, n: nat)
    requires i <= n <= |inputs|
    ensures |Run(inputs[..i]).processes| <= |Run(inputs[..n]).processes|
  {
    hide Run;
    assert inputs[..n][..i] == inputs[..i];
    RunExtends(inputs[..n], i);
  }

  /** A record that did not exist after `n` calls got nothing from them. */
  lemma NoneLanded(inputs: seq<Input>, n: nat, r: nat, p: Property)
    requires n <= |inputs| && |Run(inputs[..n]).processes| <= r
    ensures Remembers(inputs[..n], r, p, None)
  {
    hide Run, Supplied;
    forall i | 0 <= i < n ensures !Supplies(inputs[..n], i, r, p) {
      SuppliesBefore(inputs, n, i, r, p);
      RecordsGrow(inputs, i, n);
      RecordsGrow(inputs, i + 1, n);
    }
  }

  // ---- the start time ----

  /** Call `i` appended the record. */
  ghost predicate Appends(inputs: seq<Input>, i: nat, r: nat)
    requires i < |inputs|
  {
    |Run(inputs[..i]).processes| == r < |Run(inputs[..i + 1]).processes|
  }

  /** The start time of the record after the start that appended it; one appended by a stop has none. */
  ghost predicate StartedBy(inputs: seq<Input>, i: nat, r: nat, time: SystemTime)
    requires i < |inputs|
  {
    var e := inputs[i].event;
    Appends(inputs, i, r) && Lands(inputs, i, r) && time == if e.kind.ProcessStart? then e.timestamp else NO_TIME
  }

  lemma CallStarts(s: StoreState, x: Input, r: nat)
    requires r < |AddInput(s, x).state.processes|
    ensures var t := AddInput(s, x).state;
      if r < |s.processes| then t.processes[r].startTime == s.processes[r].startTime
      else
        && r == |s.processes| && LandsIn(s, x, t, r)
        && t.processes[r].startTime == if x.event.kind.ProcessStart? then x.event.timestamp else NO_TIME
  {
    hide ReserveRecord, ReserveEvent, FindProcess;
    AddMerges(s, x);
  }

  lemma StartedBefore(inputs: seq<Input>, n: nat, i: nat, r: nat, time: SystemTime)
    requires i < n <= |inputs| && StartedBy(inputs[..n], i, r, time)
    ensures StartedBy(inputs, i, r, time)
  {
    hide LandsIn, Run;
    assert inputs[..n][..i] == inputs[..i] && inputs[..n][..i + 1] == inputs[..i + 1];
  }

  lemma StartedNow(inputs: seq<Input>, i: nat, r: nat)
    requires i < |inputs| && |Run(inputs[..i]).processes| <= r < |Run(inputs[..i + 1]).processes|
    ensures StartedBy(inputs, i, r, Run(inputs[..i + 1]).processes[r].startTime)
  {
    RunStep(inputs[..i + 1]);
    assert inputs[..i + 1][..i] == inputs[..i];
    hide Run, AddInput, LandsIn;
    CallStarts(Run(inputs[..i]), inputs[i], r);
  }

  /** The start time of a record is that of the start that appended it, whatever lands in it later. */
  lemma {:induction false} RecordStarted(inputs: seq<Input>, r: nat)
    requires r < |Run(inputs).processes|
    ensures exists i :: 0 <= i < |inputs| && StartedBy(inputs, i, r, Run(inputs).processes[r].startTime)
  {
    if inputs == [] {
    } else {
      var n := |inputs| - 1;
      var before := inputs[..n];
      RunStep(inputs);
      assert inputs[..n + 1] == inputs;
      hide Run, AddInput, LandsIn, StartedBy;
      if r < |Run(before).processes| {
        CallStarts(Run(before), inputs[n], r);
        RecordStarted(before, r);
        var i :| 0 <= i < n && StartedBy(before, i, r, Run(before).processes[r].startTime);
        StartedBefore(inputs, n, i, r, Run(inputs).processes[r].startTime);
      } else {
        StartedNow(inputs, n, r);
      }
    }
  }

  /** An active record has no stop time. */
  ghost predicate ActiveUnstopped(s: StoreState) {
    forall r :: 0 <= r < |s.processes| && s.processes[r].active ==> s.processes[r].stopTime == NO_TIME
  }

  lemma CallUnstopped(s: StoreState, x: Input)
    requires ActiveUnstopped(s)
    ensures ActiveUnstopped(AddInput(s, x).state)
  {
    hide ReserveRecord, ReserveEvent, FindProcess;
    AddMerges(s, x);
  }

  lemma {:induction false} AlwaysUnstopped(inputs: seq<Input>)
    ensures ActiveUnstopped(Run(inputs))
  {
    if inputs == [] {
    } else {
      RunStep(inputs);
      hide Run, AddInput, ActiveUnstopped;
      AlwaysUnstopped(inputs[..|inputs| - 1]);
      CallUnstopped(Run(inputs[..|inputs| - 1]), inputs[|inputs| - 1]);
    }
  }

  // ---- what a call answers ----

  /** The process is recorded already, as far as this event goes: a start with a record, or a stop whose
      record is inactive. */
  predicate Recorded(s: StoreState, e: Event) {
    IsProcessEvent(e) &&
    match FindProcess(s.processes, e.process)
    case Some(i) => e.kind.ProcessStart? || !s.processes[i].active
    case None => false
  }

  /** The event needs a record and there is no memory for it. */
  predicate RecordLost(s: StoreState, x: Input) {
    IsProcessEvent(x.event) && FindProcess(s.processes, x.event.process).None? && !ReserveRecord(s, x.recordMemory).ok
  }

  /** A call reports an event as accepted iff it stores it at the end of the log, under the next sequence
      number; it does so for every event that is not recorded already unless memory runs out, and only
      lack of memory makes it fail. */
  lemma CallAnswers(s: StoreState, x: Input)
    ensures var (a, stored) := (AddInput(s, x), x.event.(sequence := s.nextSequence));
      && a.state.events == (if a.accepted then s.events + [stored] else s.events)
      && a.event == (if a.accepted then stored else x.event)
      && (a.accepted <==> !Recorded(s, x.event) && !RecordLost(s, x) && ReserveEvent(s, x.eventMemory).ok)
      && (a.ok <==> a.accepted || Recorded(s, x.event))
  {
    hide Capacity.Reserve, FindProcess, NewRecord, Updated;
  }
}
