/** What one call of event_store_add does to the store (src/event_store.c), on values.  The two
    flags of an input say whether realloc succeeds for the record array and the event array. */
module StoreModel {
  import opened WideStrings
  import opened Events
  import Capacity

  /** sizeof(TraceGlassEvent) and sizeof(ProcessRecord) on x64, and the first allocations. */
  const EVENT_BYTES := 4224
  const RECORD_BYTES := 1632
  const FIRST_EVENTS := 256
  const FIRST_RECORDS := 128

  datatype ProcessRecord = ProcessRecord(
    key: ProcessKey,
    parent: ProcessKey,
    active: bool,
    name: Wide,
    parentName: Wide,
    path: Wide,
    startTime: SystemTime,
    stopTime: SystemTime)

  datatype StoreState = StoreState(
    events: seq<Event>,
    eventCapacity: nat,
    processes: seq<ProcessRecord>,
    processCapacity: nat,
    activeCount: nat,
    networkCount: Qword,
    alertCount: Qword,
    nextSequence: Qword)

  const EMPTY_STORE := StoreState([], 0, [], 0, 0, 0, 0, 1)

  /** size_t and ULONGLONG arithmetic wraps. */
  function Wrap(n: nat): Qword { n % 0x1_0000_0000_0000_0000 }

  function Increment(n: Qword): Qword { Wrap(n + 1) }

  /** Creation time 0 matches every time of the same PID, so this is not transitive. */
  predicate KeysMatch(left: ProcessKey, right: ProcessKey) {
    left.pid == right.pid &&
    (left.creationTime == right.creationTime || left.creationTime == 0 || right.creationTime == 0)
  }

  /** The newest record with exactly this key. */
  function NewestExact(ps: seq<ProcessRecord>, key: ProcessKey): (r: Option<nat>)
    ensures r.Some? ==> r.value < |ps| && ps[r.value].key == key
    ensures r.Some? ==> forall i :: r.value < i < |ps| ==> ps[i].key != key
    ensures r.None? ==> forall i :: 0 <= i < |ps| ==> ps[i].key != key
  {
    if ps == [] then None
    else if ps[|ps| - 1].key == key then Some(|ps| - 1)
    else NewestExact(ps[..|ps| - 1], key)
  }

  /** The newest active record whose key matches under the wildcard rule. */
  function NewestActive(ps: seq<ProcessRecord>, key: ProcessKey): (r: Option<nat>)
    ensures r.Some? ==> r.value < |ps| && ps[r.value].active && KeysMatch(ps[r.value].key, key)
    ensures r.Some? ==> forall i :: r.value < i < |ps| ==> !(ps[i].active && KeysMatch(ps[i].key, key))
    ensures r.None? ==> forall i :: 0 <= i < |ps| ==> !(ps[i].active && KeysMatch(ps[i].key, key))
  {
    if ps == [] then None
    else if ps[|ps| - 1].active && KeysMatch(ps[|ps| - 1].key, key) then Some(|ps| - 1)
    else NewestActive(ps[..|ps| - 1], key)
  }

  /** An exact hit, active or not, wins over the newest active wildcard hit; PID 0 is never found. */
  function FindProcess(ps: seq<ProcessRecord>, key: ProcessKey): (r: Option<nat>)
    ensures r.Some? ==> r.value < |ps| && key.pid != 0 && KeysMatch(ps[r.value].key, key)
    ensures r.Some? && !ps[r.value].active ==> ps[r.value].key == key && Exact(key)
  {
    if key.pid == 0 then None
    else if key.creationTime != 0 && NewestExact(ps, key).Some? then NewestExact(ps, key)
    else NewestActive(ps, key)
  }

  predicate IsExact(ps: seq<ProcessRecord>, key: ProcessKey, i: int) {
    0 <= i < |ps| && key.creationTime != 0 && ps[i].key == key
  }

  predicate IsActiveMatch(ps: seq<ProcessRecord>, key: ProcessKey, i: int) {
    0 <= i < |ps| && ps[i].active && KeysMatch(ps[i].key, key)
  }

  /** What lookup returns: the newest exact record; without one, the newest active record that matches;
      nothing only when there is neither, or the PID is 0. */
  lemma FindProcessIs(ps: seq<ProcessRecord>, key: ProcessKey)
    ensures match FindProcess(ps, key)
      case Some(i) =>
        && key.pid != 0
        && if IsExact(ps, key, i) then forall j :: j > i ==> !IsExact(ps, key, j)
           else IsActiveMatch(ps, key, i) && forall j :: !IsExact(ps, key, j) && (j > i ==> !IsActiveMatch(ps, key, j))
      case None => key.pid == 0 || forall j :: !IsExact(ps, key, j) && !IsActiveMatch(ps, key, j)
  {
  }

  /** update_record_from_event: a nonzero time, a known parent and non-empty texts overwrite. */
  function Updated(r: ProcessRecord, e: Event): (u: ProcessRecord)
    ensures u.active == r.active && u.key.pid == r.key.pid
    ensures u.key.creationTime ==
      if e.process.creationTime != 0 then e.process.creationTime else r.key.creationTime
  {
    var time := if e.process.creationTime != 0 then e.process.creationTime else r.key.creationTime;
    r.(key := ProcessKey(r.key.pid, time),
       parent := if e.parent.pid != 0 then e.parent else r.parent,
       name := if e.processName != [] then Truncated(e.processName, MAX_PATH) else r.name,
       parentName := if e.parentName != [] then Truncated(e.parentName, MAX_PATH) else r.parentName,
       path := if e.executablePath != [] then Truncated(e.executablePath, MAX_PATH) else r.path)
  }

  function NewRecord(e: Event): (r: ProcessRecord)
    ensures r.key == e.process && !r.active
  {
    Updated(ProcessRecord(e.process, e.parent, false, [], [], [], NO_TIME, NO_TIME), e)
  }

  function ReserveRecord(s: StoreState, memory: bool): Capacity.Reservation {
    Capacity.Reserve(s.processCapacity, |s.processes| + 1, FIRST_RECORDS, RECORD_BYTES, memory)
  }

  function ReserveEvent(s: StoreState, memory: bool): Capacity.Reservation {
    Capacity.Reserve(s.eventCapacity, |s.events| + 1, FIRST_EVENTS, EVENT_BYTES, memory)
  }

  /** The first half of event_store_add: merge the event into the process records and counters.
      Duplicate returns at once with TRUE, NoMemory with FALSE. */
  datatype Merge = Proceed(state: StoreState) | Duplicate(state: StoreState) | NoMemory(state: StoreState)

  function MergeStart(s: StoreState, e: Event, memory: bool): Merge {
    match FindProcess(s.processes, e.process)
    case Some(i) => Duplicate(s.(processes := s.processes[i := Updated(s.processes[i], e)]))
    case None =>
      var r := ReserveRecord(s, memory);
      if !r.ok then NoMemory(s)
      else
        Proceed(s.(
          processes := s.processes + [NewRecord(e).(active := true, startTime := e.timestamp)],
          processCapacity := r.capacity,
          activeCount := s.activeCount + 1))
  }

  function MergeStop(s: StoreState, e: Event, memory: bool): Merge {
    match FindProcess(s.processes, e.process)
    case Some(i) =>
      if !s.processes[i].active then Duplicate(s)
      else
        Proceed(s.(
          processes := s.processes[i := Updated(s.processes[i], e).(active := false, stopTime := e.timestamp)],
          activeCount := if s.activeCount > 0 then s.activeCount - 1 else 0))
    case None =>
      var r := ReserveRecord(s, memory);
      if !r.ok then NoMemory(s)
      else
        Proceed(s.(
          processes := s.processes + [NewRecord(e).(stopTime := e.timestamp)],
          processCapacity := r.capacity))
  }

  function MergeEvent(s: StoreState, e: Event, memory: bool): Merge {
    match e.kind
    case ProcessStart => MergeStart(s, e, memory)
    case ProcessStop => MergeStop(s, e, memory)
    case Network => Proceed(s.(networkCount := Increment(s.networkCount)))
    case Alert => Proceed(s.(alertCount := Increment(s.alertCount)))
    case _ => Proceed(s)
  }

  /** The result of event_store_add: the new store, the caller's event (its sequence is written
      back on acceptance), the BOOL returned and the `accepted` flag. */
  datatype Added = Added(state: StoreState, event: Event, ok: bool, accepted: bool)

  function Append(s: StoreState, e: Event, memory: bool): Added {
    var r := ReserveEvent(s, memory);
    if !r.ok then Added(s, e, false, false)
    else
      var stored := e.(sequence := s.nextSequence);
      Added(s.(events := s.events + [stored],
               eventCapacity := r.capacity,
               nextSequence := Increment(s.nextSequence)),
            stored, true, true)
  }

  function Add(s: StoreState, e: Event, recordMemory: bool, eventMemory: bool): Added {
    match MergeEvent(s, e, recordMemory)
    case Duplicate(t) => Added(t, e, true, false)
    case NoMemory(t) => Added(t, e, false, false)
    case Proceed(t) => Append(t, e, eventMemory)
  }

  /** One call: the event handed over and what the two reallocs would answer. */
  datatype Input = Input(event: Event, recordMemory: bool, eventMemory: bool)

  function AddInput(s: StoreState, i: Input): Added {
    Add(s, i.event, i.recordMemory, i.eventMemory)
  }

  function EventsOf(inputs: seq<Input>): (events: seq<Event>)
    ensures |events| == |inputs|
  {
    seq(|inputs|, i requires 0 <= i < |inputs| => inputs[i].event)
  }

  /** The store after a sequence of calls on a freshly initialised store. */
  function Run(inputs: seq<Input>): StoreState {
    if inputs == [] then EMPTY_STORE
    else AddInput(Run(inputs[..|inputs| - 1]), inputs[|inputs| - 1]).state
  }

  lemma RunStep(inputs: seq<Input>)
    requires inputs != []
    ensures Run(inputs) == AddInput(Run(inputs[..|inputs| - 1]), inputs[|inputs| - 1]).state
  {
    hide AddInput;
  }

  /** A process event whose record could not be allocated: the call leaves no trace. */
  predicate Dropped(inputs: seq<Input>, i: nat)
    requires i < |inputs|
  {
    MergeEvent(Run(inputs[..i]), inputs[i].event, inputs[i].recordMemory).NoMemory?
  }

  /** No process event was dropped. */
  ghost predicate AllKept(inputs: seq<Input>) {
    forall i :: 0 <= i < |inputs| ==> !Dropped(inputs, i)
  }

  lemma KeptBefore(inputs: seq<Input>)
    requires inputs != [] && AllKept(inputs)
    ensures var (before, x) := (inputs[..|inputs| - 1], inputs[|inputs| - 1]);
      AllKept(before) && !MergeEvent(Run(before), x.event, x.recordMemory).NoMemory?
  {
    hide Run, MergeEvent;
    var before := inputs[..|inputs| - 1];
    forall i | 0 <= i < |before| ensures !Dropped(before, i) {
      assert inputs[..i] == before[..i] && !Dropped(inputs, i);
    }
    assert !Dropped(inputs, |before|);
  }
}
