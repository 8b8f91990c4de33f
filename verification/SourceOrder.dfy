/** Two telemetry sources report the same processes in any order (src/event_store.c): exactly when the
    order in which their events reach the store decides whether a process is active under its own key.
    Active records without a creation time are the subject of PidOrder. */
module SourceOrder {
  import opened WideStrings
  import opened Events
  import opened StoreModel
  import opened StoreInvariants
  import opened StoreHistory
  import Capacity

  /** The events of a run as a set: order and repetition forgotten. */
  ghost function EventSet(inputs: seq<Input>): set<Event> {
    set i | 0 <= i < |inputs| :: inputs[i].event
  }

  /** A run over exactly these events, in some order and possibly with repetitions, in which every
      record found memory. */
  ghost predicate RunOf(events: set<Event>, inputs: seq<Input>) {
    EventSet(inputs) == events && AllKept(inputs)
  }

  ghost predicate Reporting(events: set<Event>, kind: EventType, k: ProcessKey) {
    exists e :: e in events && e.kind == kind && e.process == k
  }

  ghost predicate HasUntimedStop(events: set<Event>, pid: Dword) {
    exists e :: e in events && UntimedStop(e, pid)
  }

  /** The process is started and never stopped by its own key, but a stop of its PID lacks the time. */
  ghost predicate OrderSensitive(events: set<Event>, k: ProcessKey) {
    Reporting(events, ProcessStart, k) && !Reporting(events, ProcessStop, k) && HasUntimedStop(events, k.pid)
  }

  lemma ReportedBySet(events: set<Event>, inputs: seq<Input>, kind: EventType, k: ProcessKey)
    requires RunOf(events, inputs)
    ensures Reported(inputs, kind, k) <==> Reporting(events, kind, k)
  {
    hide Dropped;
    if Reporting(events, kind, k) {
      var e :| e in events && e.kind == kind && e.process == k;
      var i :| 0 <= i < |inputs| && inputs[i].event == e;
      assert Reports(inputs[i], kind, k);
    }
    if Reported(inputs, kind, k) {
      var i :| 0 <= i < |inputs| && Reports(inputs[i], kind, k);
      assert inputs[i].event in events;
    }
  }

  lemma StopsTimedBySet(events: set<Event>, inputs: seq<Input>, pid: Dword)
    requires RunOf(events, inputs) && !HasUntimedStop(events, pid)
    ensures StopTimesKnown(inputs, pid)
  {
    hide Dropped;
    forall i | 0 <= i < |inputs| ensures !UntimedStop(inputs[i].event, pid) {
      assert inputs[i].event in events;
    }
  }

  /** Away from the sensitive case the events alone decide. */
  lemma SetDecides(events: set<Event>, inputs: seq<Input>, k: ProcessKey)
    requires RunOf(events, inputs) && Exact(k) && !OrderSensitive(events, k)
    ensures k in ActiveKeys(Run(inputs)) <==>
      Reporting(events, ProcessStart, k) && !Reporting(events, ProcessStop, k)
  {
    hide Run, RunOf, Reporting, HasUntimedStop, Reported;
    ReportedBySet(events, inputs, ProcessStart, k);
    ReportedBySet(events, inputs, ProcessStop, k);
    if HasUntimedStop(events, k.pid) {
      IdentityHistory(inputs, k);
    } else {
      StopsTimedBySet(events, inputs, k.pid);
      ActiveIffStartedNotStopped(inputs, k);
    }
  }

  /** Two runs over the same set of events - any interleaving, permutation or duplication of the ETW
      and Toolhelp streams - agree on the active identities, if no process is order-sensitive. */
  lemma IdentitiesCommute(a: seq<Input>, b: seq<Input>)
    requires RunOf(EventSet(a), a) && RunOf(EventSet(a), b)
    requires forall k :: Exact(k) ==> !OrderSensitive(EventSet(a), k)
    ensures ActiveKeys(Run(a)) == ActiveKeys(Run(b))
  {
    hide Run, RunOf, OrderSensitive;
    forall k ensures k in ActiveKeys(Run(a)) <==> k in ActiveKeys(Run(b)) {
      if Exact(k) {
        SetDecides(EventSet(a), a, k);
        SetDecides(EventSet(a), b, k);
      }
    }
  }

  // ---- runs over a given set ----

  /** The events in some order. */
  ghost function Listing(events: set<Event>): (es: seq<Event>)
    ensures |es| == |events| && forall e :: e in es <==> e in events
  {
    if events == {} then []
    else
      var e :| e in events;
      [e] + Listing(events - {e})
  }

  /** These events, with memory for everything. */
  function Inputs(es: seq<Event>): (inputs: seq<Input>)
    ensures |inputs| == |es|
  {
    seq(|es|, i requires 0 <= i < |es| => Input(es[i], true, true))
  }

  lemma InputsSet(es: seq<Event>, events: set<Event>)
    requires forall e :: e in es <==> e in events
    ensures EventSet(Inputs(es)) == events
  {
    forall e ensures e in EventSet(Inputs(es)) <==> e in events {
      if e in events {
        var i :| 0 <= i < |es| && es[i] == e;
        assert Inputs(es)[i].event == e;
      }
    }
  }

  /** The record array can grow to this many records. */
  ghost predicate Room(records: nat) {
    exists n: nat :: Capacity.Serves(n, records, FIRST_RECORDS, RECORD_BYTES)
  }

  lemma FirstBlock(records: nat)
    requires records <= FIRST_RECORDS
    ensures Room(records)
  {
    assert Capacity.Serves(0, records, FIRST_RECORDS, RECORD_BYTES);
  }

  lemma LessRoom(records: nat, fewer: nat)
    requires Room(records) && fewer <= records
    ensures Room(fewer)
  {
    var n: nat :| Capacity.Serves(n, records, FIRST_RECORDS, RECORD_BYTES);
    assert Capacity.Serves(n, fewer, FIRST_RECORDS, RECORD_BYTES);
  }

  lemma OneRecordEach(s: StoreState, x: Input)
    ensures |AddInput(s, x).state.processes| <= |s.processes| + 1
  {
    hide ReserveRecord, ReserveEvent, FindProcess, NewRecord, Updated;
  }

  lemma {:induction false} RecordsBounded(inputs: seq<Input>)
    ensures |Run(inputs).processes| <= |inputs|
  {
    if inputs == [] {
    } else {
      RunStep(inputs);
      hide Run, AddInput;
      RecordsBounded(inputs[..|inputs| - 1]);
      OneRecordEach(Run(inputs[..|inputs| - 1]), inputs[|inputs| - 1]);
    }
  }

  lemma MemoryKeeps(s: StoreState, e: Event)
    requires ReserveRecord(s, true).ok
    ensures !MergeEvent(s, e, true).NoMemory?
  {
    hide ReserveRecord, FindProcess;
  }

  /** With memory, and room for one record per event, no event is dropped. */
  lemma NothingDropped(es: seq<Event>)
    requires Room(|es|)
    ensures AllKept(Inputs(es))
  {
    hide Run, MergeEvent, ReserveRecord, Room;
    forall i | 0 <= i < |es| ensures !Dropped(Inputs(es), i) {
      var s := Run(Inputs(es)[..i]);
      RecordsBounded(Inputs(es)[..i]);
      RunConsistent(Inputs(es)[..i]);
      LessRoom(|es|, |s.processes| + 1);
      RoomReserves(s);
      MemoryKeeps(s, es[i]);
    }
  }

  lemma RoomReserves(s: StoreState)
    requires Consistent(s) && Room(|s.processes| + 1)
    ensures ReserveRecord(s, true).ok
  {
    hide Capacity.Reserve, Capacity.Sound, IdentitiesUnique, ActiveSeparated;
    Capacity.ReserveFailsIff(s.processCapacity, |s.processes| + 1, FIRST_RECORDS, RECORD_BYTES);
  }

  // ---- the two orders ----

  lemma RunIsOf(es: seq<Event>, events: set<Event>)
    requires (forall e :: e in es <==> e in events) && Room(|es|)
    ensures RunOf(events, Inputs(es))
  {
    hide AllKept, EventSet, Room;
    InputsSet(es, events);
    NothingDropped(es);
  }

  lemma PartSize(events: set<Event>, part: set<Event>)
    requires part <= events
    ensures |part| + |events - part| == |events|
  {
    assert part + (events - part) == events;
  }

  /** The events of a part first, then the others. */
  lemma PartFirst(events: set<Event>, part: set<Event>) returns (es: seq<Event>)
    requires part <= events
    ensures |es| == |events| && (forall e :: e in es <==> e in events)
    ensures |part| <= |es| && forall i :: 0 <= i < |es| ==> (es[i] in part <==> i < |part|)
  {
    var (front, rest) := (Listing(part), Listing(events - part));
    es := front + rest;
    PartSize(events, part);
    Concatenated(front, rest);
    hide Listing;
  }

  lemma Concatenated(front: seq<Event>, rest: seq<Event>)
    ensures forall e :: e in front + rest <==> e in front || e in rest
    ensures forall i :: 0 <= i < |front + rest| ==>
      if i < |front| then (front + rest)[i] in front else (front + rest)[i] in rest
  {
  }

  lemma StopsFirstListing(events: set<Event>, pid: Dword) returns (es: seq<Event>, first: nat)
    ensures |es| == |events| && forall e :: e in es <==> e in events
    ensures StopsFirst(Inputs(es), pid, first)
  {
    hide UntimedStop;
    var stops := set e | e in events && UntimedStop(e, pid);
    es := PartFirst(events, stops);
    first := |stops|;
    forall i | 0 <= i < |es| ensures UntimedStop(Inputs(es)[i].event, pid) <==> i < first {
      assert es[i] in es;
    }
  }

  /** The untimed stops of the PID first: they find nothing, and everything started stays active. */
  lemma StopsFirstRun(events: set<Event>, k: ProcessKey) returns (inputs: seq<Input>)
    requires Exact(k) && OrderSensitive(events, k) && Room(|events|)
    ensures RunOf(events, inputs) && k in ActiveKeys(Run(inputs))
  {
    hide Run, RunOf, Reported, Room, Reporting, HasUntimedStop, Inputs, StopsFirst;
    var es, first := StopsFirstListing(events, k.pid);
    inputs := Inputs(es);
    RunIsOf(es, events);
    ReportedBySet(events, inputs, ProcessStart, k);
    ReportedBySet(events, inputs, ProcessStop, k);
    StartedStaysActive(inputs, k, first);
  }

  lemma PairFirst(events: set<Event>, x: Event, y: Event) returns (es: seq<Event>)
    requires x in events && y in events && x != y
    ensures |es| == |events| && forall e :: e in es <==> e in events
    ensures |es| >= 2 && es[0] == x && es[1] == y
  {
    var rest := events - {x} - {y};
    es := [x, y] + Listing(rest);
    assert |events - {x}| == |events| - 1 && |rest| == |events| - 2;
    forall e ensures e in es <==> e in events {
      assert e in es <==> e == x || e == y || e in Listing(rest);
    }
  }

  /** The start, then the untimed stop, then the rest: the record is stopped and stays so. */
  lemma StartFirstRun(events: set<Event>, k: ProcessKey) returns (inputs: seq<Input>)
    requires Exact(k) && OrderSensitive(events, k) && Room(|events|)
    ensures RunOf(events, inputs) && k !in ActiveKeys(Run(inputs))
  {
    hide Run, RunOf, Room, ActiveKeys;
    var start :| start in events && start.kind == ProcessStart && start.process == k;
    var stop :| stop in events && UntimedStop(stop, k.pid);
    var es := PairFirst(events, start, stop);
    inputs := Inputs(es);
    RunIsOf(es, events);
    StoppedForGood(inputs, k);
  }

  /** After a start and an untimed stop of its PID, nothing makes a process active again. */
  lemma StoppedForGood(inputs: seq<Input>, k: ProcessKey)
    requires Exact(k) && |inputs| >= 2 && inputs[0].recordMemory
    requires inputs[0].event.kind == ProcessStart && inputs[0].event.process == k
    requires UntimedStop(inputs[1].event, k.pid)
    ensures k !in ActiveKeys(Run(inputs))
  {
    hide Run, AddInput;
    var two := inputs[..2];
    TwoCalls(two);
    var one := AddInput(EMPTY_STORE, two[0]).state;
    FirstStart(two[0]);
    UntimedStopHits(one, two[1]);
    RunExtends(inputs, 2);
    RunConsistent(inputs);
    OnlyRecordInactive(Run(two), Run(inputs), k);
  }

  lemma TwoCalls(inputs: seq<Input>)
    requires |inputs| == 2
    ensures Run(inputs) == AddInput(AddInput(EMPTY_STORE, inputs[0]).state, inputs[1]).state
  {
    hide AddInput;
    RunStep(inputs);
    RunStep(inputs[..1]);
    assert inputs[..1][..0] == [];
  }

  lemma FirstStart(x: Input)
    requires x.event.kind == ProcessStart && x.recordMemory
    ensures var ps := AddInput(EMPTY_STORE, x).state.processes;
      |ps| == 1 && ps[0].key == x.event.process && ps[0].active
  {
    hide ReserveEvent;
    assert Capacity.DoubleUntil(FIRST_RECORDS, 1) == Some(FIRST_RECORDS);
  }

  lemma UntimedStopHits(s: StoreState, x: Input)
    requires |s.processes| == 1 && s.processes[0].active && s.processes[0].key.pid != 0
    requires UntimedStop(x.event, s.processes[0].key.pid)
    ensures var ps := AddInput(s, x).state.processes; |ps| == 1 && ps[0].key == s.processes[0].key && !ps[0].active
  {
    hide ReserveEvent;
    assert KeysMatch(s.processes[0].key, x.event.process);
    assert FindProcess(s.processes, x.event.process) == Some(0);
  }

  lemma OnlyRecordInactive(s: StoreState, t: StoreState, k: ProcessKey)
    requires Exact(k) && Extends(s, t) && IdentitiesUnique(t.processes)
    requires |s.processes| > 0 && s.processes[0].key == k && !s.processes[0].active
    ensures k !in ActiveKeys(t)
  {
    assert Succeeds(s.processes[0], t.processes[0]);
  }

  /** For one process: over the runs of a set of events, its final activity depends on the order iff
      the set starts it, never stops it by its own key, and stops its PID without a time. */
  lemma OrderMattersIff(events: set<Event>, k: ProcessKey)
    requires Exact(k) && Room(|events|)
    ensures
      (exists a, b :: RunOf(events, a) && RunOf(events, b) && k in ActiveKeys(Run(a)) && k !in ActiveKeys(Run(b)))
      <==> OrderSensitive(events, k)
  {
    hide Run, RunOf, ActiveKeys, Room, OrderSensitive, Reporting;
    if OrderSensitive(events, k) {
      var a := StopsFirstRun(events, k);
      var b := StartFirstRun(events, k);
    } else {
      forall a | RunOf(events, a)
        ensures k in ActiveKeys(Run(a)) <==> Reporting(events, ProcessStart, k) && !Reporting(events, ProcessStop, k)
      {
        SetDecides(events, a, k);
      }
    }
  }

  /** For all of them: all runs of a set of events agree on the active identities iff no process is
      order-sensitive. */
  lemma IdentitiesCommuteIff(events: set<Event>)
    requires Room(|events|)
    ensures (forall a, b | RunOf(events, a) && RunOf(events, b) :: ActiveKeys(Run(a)) == ActiveKeys(Run(b))) <==>
      forall k | Exact(k) :: !OrderSensitive(events, k)
  {
    hide Run, ActiveKeys, Room, OrderSensitive, AllKept;
    if forall k | Exact(k) :: !OrderSensitive(events, k) {
      forall a, b | RunOf(events, a) && RunOf(events, b) ensures ActiveKeys(Run(a)) == ActiveKeys(Run(b)) {
        IdentitiesCommute(a, b);
      }
    } else {
      var k :| Exact(k) && OrderSensitive(events, k);
      OrderMattersIff(events, k);
    }
  }

  // ---- an instance ----

  const KNOWN_START := NO_EVENT.(process := ProcessKey(8, 5))
  const UNKNOWN_STOP := NO_EVENT.(kind := ProcessStop, process := ProcessKey(8, 0))

  /** The same two reports, a start and a stop without a time, leave the process stopped in one order
      and active in the other. */
  lemma WildcardStopOrderMatters()
    ensures var (a, b) := (Inputs([KNOWN_START, UNKNOWN_STOP]), Inputs([UNKNOWN_STOP, KNOWN_START]));
      && RunOf({KNOWN_START, UNKNOWN_STOP}, a) && RunOf({KNOWN_START, UNKNOWN_STOP}, b)
      && ActiveKeys(Run(a)) == {} && ActiveKeys(Run(b)) == {ProcessKey(8, 5)}
  {
    hide Run, AllKept, Reported;
    var (a, b, k) := (Inputs([KNOWN_START, UNKNOWN_STOP]), Inputs([UNKNOWN_STOP, KNOWN_START]), ProcessKey(8, 5));
    FirstBlock(2);
    RunIsOf([KNOWN_START, UNKNOWN_STOP], {KNOWN_START, UNKNOWN_STOP});
    RunIsOf([UNKNOWN_STOP, KNOWN_START], {KNOWN_START, UNKNOWN_STOP});
    StoppedForGood(a, k);
    ReportedBySet({KNOWN_START, UNKNOWN_STOP}, b, ProcessStart, k);
    ReportedBySet({KNOWN_START, UNKNOWN_STOP}, b, ProcessStop, k);
    assert KNOWN_START in {KNOWN_START, UNKNOWN_STOP};
    StartedStaysActive(b, k, 1);
    forall other | other != k ensures other !in ActiveKeys(Run(a)) && other !in ActiveKeys(Run(b)) {
      if Exact(other) {
        ReportedBySet({KNOWN_START, UNKNOWN_STOP}, a, ProcessStart, other);
        ReportedBySet({KNOWN_START, UNKNOWN_STOP}, b, ProcessStart, other);
        IdentityHistory(a, other);
        IdentityHistory(b, other);
      }
    }
  }
}
