/** The event store of src/event_store.c, updated in place: two growable arrays, the counters and
    the lookup loop, each proved to do what StoreModel says. */
module EventStores {
  import opened WideStrings
  import opened Events
  import opened StoreModel
  import Capacity

  class EventStore {
    var events: array<Event>
    var eventCount: nat
    var processes: array<ProcessRecord>
    var processCount: nat
    var activeProcessCount: nat
    var networkCount: Qword
    var alertCount: Qword
    var nextSequence: Qword

    ghost predicate Valid()
      reads this
    {
      eventCount <= events.Length && processCount <= processes.Length
    }

    /** The arrays and counters as one value. */
    ghost function Abstract(): StoreState
      reads this, events, processes
      requires Valid()
    {
      StoreState(events[..eventCount], events.Length, processes[..processCount], processes.Length,
                 activeProcessCount, networkCount, alertCount, nextSequence)
    }

    ghost function Repr(): set<object>
      reads this
    {
      {this, events, processes}
    }

    constructor ()
      ensures Valid() && Abstract() == EMPTY_STORE
      ensures fresh(Repr())
    {
      events := new Event[0];
      processes := new ProcessRecord[0];
      eventCount, processCount, activeProcessCount := 0, 0, 0;
      networkCount, alertCount, nextSequence := 0, 0, 1;
    }

    method ReserveEvents(required: nat, memory: bool) returns (ok: bool)
      requires Valid()
      modifies this`events
      ensures Valid() && (events == old(events) || fresh(events))
      ensures Capacity.Reservation(ok, events.Length) ==
        Capacity.Reserve(old(events.Length), required, FIRST_EVENTS, EVENT_BYTES, memory)
      ensures events[..eventCount] == old(events[..eventCount])
    {
      if required <= events.Length {
        return true;
      }
      var capacity;
      if events.Length == 0 {
        capacity := FIRST_EVENTS;
      } else {
        if events.Length > Capacity.SIZE_MAX / 2 {
          return false;
        }
        capacity := events.Length * 2;
      }
      while capacity < required
        invariant 0 < capacity
        invariant Capacity.DoubleUntil(capacity, required) ==
          Capacity.DoubleUntil(if events.Length == 0 then FIRST_EVENTS else 2 * events.Length, required)
        decreases required - capacity
      {
        if capacity > Capacity.SIZE_MAX / 2 {
          return false;
        }
        capacity := capacity * 2;
      }
      if capacity > Capacity.SIZE_MAX / EVENT_BYTES || !memory {
        return false;
      }
      var resized := new Event[capacity];
      forall i | 0 <= i < eventCount {
        resized[i] := events[i];
      }
      events := resized;
      return true;
    }

    method ReserveProcesses(required: nat, memory: bool) returns (ok: bool)
      requires Valid()
      modifies this`processes
      ensures Valid() && (processes == old(processes) || fresh(processes))
      ensures Capacity.Reservation(ok, processes.Length) ==
        Capacity.Reserve(old(processes.Length), required, FIRST_RECORDS, RECORD_BYTES, memory)
      ensures processes[..processCount] == old(processes[..processCount])
    {
      if required <= processes.Length {
        return true;
      }
      var capacity;
      if processes.Length == 0 {
        capacity := FIRST_RECORDS;
      } else {
        if processes.Length > Capacity.SIZE_MAX / 2 {
          return false;
        }
        capacity := processes.Length * 2;
      }
      while capacity < required
        invariant 0 < capacity
        invariant Capacity.DoubleUntil(capacity, required) ==
          Capacity.DoubleUntil(if processes.Length == 0 then FIRST_RECORDS else 2 * processes.Length, required)
        decreases required - capacity
      {
        if capacity > Capacity.SIZE_MAX / 2 {
          return false;
        }
        capacity := capacity * 2;
      }
      if capacity > Capacity.SIZE_MAX / RECORD_BYTES || !memory {
        return false;
      }
      var resized := new ProcessRecord[capacity];
      forall i | 0 <= i < processCount {
        resized[i] := processes[i];
      }
      processes := resized;
      return true;
    }

    /** The backward scan: it returns at once on an exact hit and otherwise remembers the first
        active wildcard match. */
    method FindProcess(key: ProcessKey) returns (found: Option<nat>)
      requires Valid()
      ensures found == StoreModel.FindProcess(processes[..processCount], key)
    {
      if key.pid == 0 {
        return None;
      }
      var activeMatch: Option<nat> := None;
      var index := processCount;
      while index > 0
        invariant 0 <= index <= processCount
        invariant forall i :: index <= i < processCount ==> processes[i].key != key || key.creationTime == 0
        invariant forall i :: index <= i < processCount && (activeMatch.Some? ==> i > activeMatch.value) ==>
          !(processes[i].active && KeysMatch(processes[i].key, key))
        invariant activeMatch.Some? ==>
          && index <= activeMatch.value < processCount
          && processes[activeMatch.value].active && KeysMatch(processes[activeMatch.value].key, key)
      {
        var record := processes[index - 1];
        if KeysMatch(record.key, key) {
          if record.key.creationTime == key.creationTime && key.creationTime != 0 {
            return Some(index - 1);
          }
          if record.active && activeMatch == None {
            activeMatch := Some(index - 1);
          }
        }
        index := index - 1;
      }
      return activeMatch;
    }

    method UpdateRecord(index: nat, event: Event)
      requires Valid() && index < processCount
      modifies processes
      ensures processes[..processCount] ==
        old(processes[..processCount])[index := Updated(old(processes[index]), event)]
    {
      var record := processes[index];
      if event.process.creationTime != 0 {
        record := record.(key := ProcessKey(record.key.pid, event.process.creationTime));
      }
      if event.parent.pid != 0 {
        record := record.(parent := event.parent);
      }
      if event.processName != [] {
        record := record.(name := Truncated(event.processName, MAX_PATH));
      }
      if event.parentName != [] {
        record := record.(parentName := Truncated(event.parentName, MAX_PATH));
      }
      if event.executablePath != [] {
        record := record.(path := Truncated(event.executablePath, MAX_PATH));
      }
      processes[index] := record;
    }

    /** Takes the next record slot for the process of `event`; fails when there is no memory. */
    method NewProcess(event: Event, memory: bool) returns (ok: bool)
      requires Valid()
      modifies this`processes, this`processCount, processes
      ensures Valid() && (processes == old(processes) || fresh(processes))
      ensures Capacity.Reservation(ok, processes.Length) == ReserveRecord(old(Abstract()), memory)
      ensures processes[..processCount] ==
        if ok then old(processes[..processCount]) + [NewRecord(event)] else old(processes[..processCount])
    {
      ok := ReserveProcesses(processCount + 1, memory);
      if !ok {
        return;
      }
      ghost var before := processes[..processCount];
      processes[processCount] :=
        ProcessRecord(event.process, event.parent, false, [], [], [], NO_TIME, NO_TIME);
      processCount := processCount + 1;
      assert processes[..processCount] == before + [processes[processCount - 1]];
      UpdateRecord(processCount - 1, event);
    }

    /** The start branch of event_store_add.  Some(b) means the call returns b at once. */
    method AddStart(event: Event, memory: bool) returns (early: Option<bool>)
      requires Valid()
      modifies this`processes, this`processCount, this`activeProcessCount, processes
      ensures Valid() && (processes == old(processes) || fresh(processes))
      ensures Merged(early, Abstract()) == MergeStart(old(Abstract()), event, memory)
    {
      hide Capacity.Reserve, NewRecord, Updated, StoreModel.FindProcess;
      var record := FindProcess(event.process);
      if record.Some? {
        UpdateRecord(record.value, event);
        return Some(true);
      }
      var ok := NewProcess(event, memory);
      if !ok {
        return Some(false);
      }
      ghost var before := processes[..processCount];
      var index := processCount - 1;
      processes[index] := processes[index].(active := true, startTime := event.timestamp);
      activeProcessCount := activeProcessCount + 1;
      assert processes[..processCount] == before[index := processes[index]];
      return None;
    }

    /** The stop branch of event_store_add. */
    method AddStop(event: Event, memory: bool) returns (early: Option<bool>)
      requires Valid()
      modifies this`processes, this`processCount, this`activeProcessCount, processes
      ensures Valid() && (processes == old(processes) || fresh(processes))
      ensures Merged(early, Abstract()) == MergeStop(old(Abstract()), event, memory)
    {
      hide Capacity.Reserve, NewRecord, Updated, StoreModel.FindProcess;
      var record := FindProcess(event.process);
      var index;
      if record.Some? {
        index := record.value;
        if !processes[index].active {
          return Some(true);
        }
        UpdateRecord(index, event);
      } else {
        var ok := NewProcess(event, memory);
        if !ok {
          return Some(false);
        }
        index := processCount - 1;
      }
      ghost var before := processes[..processCount];
      if processes[index].active && activeProcessCount > 0 {
        activeProcessCount := activeProcessCount - 1;
      }
      processes[index] := processes[index].(active := false, stopTime := event.timestamp);
      assert processes[..processCount] == before[index := processes[index]];
      return None;
    }

    /** The tail of event_store_add: number the event and append it to the log. */
    method AppendEvent(event: Event, memory: bool) returns (ok: bool, stored: Event)
      requires Valid()
      modifies this`events, this`eventCount, this`nextSequence, events
      ensures Valid() && (events == old(events) || fresh(events))
      ensures Added(Abstract(), stored, ok, ok) == Append(old(Abstract()), event, memory)
    {
      hide Capacity.Reserve;
      stored := event;
      ok := ReserveEvents(eventCount + 1, memory);
      if !ok {
        return;
      }
      ghost var before := events[..eventCount];
      stored := event.(sequence := nextSequence);
      nextSequence := Increment(nextSequence);
      events[eventCount] := stored;
      eventCount := eventCount + 1;
      assert events[..eventCount] == before + [stored];
    }

    /** event_store_add: merge into the process records, count, then append to the log. */
    method Add(event: Event, recordMemory: bool, eventMemory: bool)
      returns (ok: bool, accepted: bool, stored: Event)
      requires Valid()
      modifies this, events, processes
      ensures Valid()
      ensures events == old(events) || fresh(events)
      ensures processes == old(processes) || fresh(processes)
      ensures Added(Abstract(), stored, ok, accepted) ==
        StoreModel.Add(old(Abstract()), event, recordMemory, eventMemory)
    {
      hide MergeStart, MergeStop, Append;
      var early := None;
      if event.kind == ProcessStart {
        early := AddStart(event, recordMemory);
      } else if event.kind == ProcessStop {
        early := AddStop(event, recordMemory);
      } else if event.kind == Network {
        networkCount := Increment(networkCount);
      } else if event.kind == Alert {
        alertCount := Increment(alertCount);
      }
      if early.Some? {
        return early.value, false, event;
      }
      ok, stored := AppendEvent(event, eventMemory);
      accepted := ok;
    }
  }

  /** What an early return of a branch means to the model. */
  ghost function Merged(early: Option<bool>, s: StoreState): Merge {
    match early
    case None => Proceed(s)
    case Some(duplicate) => if duplicate then Duplicate(s) else NoMemory(s)
  }
}
