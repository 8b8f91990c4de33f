/** The order of two telemetry sources for a whole PID (src/event_store.c): exactly when it decides which
    records of the PID are active at the end, records without a creation time included. */
module PidOrder {
  import opened Events
  import opened StoreModel
  import opened StoreInvariants
  import opened StoreHistory
  import opened SourceOrder
  import opened ProcessSlots

  predicate UntimedStart(e: Event, pid: Dword) { e.kind.ProcessStart? && e.process == ProcessKey(pid, 0) }

  predicate StopOf(e: Event, pid: Dword) { e.kind.ProcessStop? && e.process.pid == pid }

  ghost predicate HasUntimedStart(events: set<Event>, pid: Dword) {
    exists e :: e in events && UntimedStart(e, pid)
  }

  ghost predicate HasStop(events: set<Event>, pid: Dword) { exists e :: e in events && StopOf(e, pid) }

  /** Some process of the PID is started and not stopped by its own key. */
  ghost predicate Survives(events: set<Event>, pid: Dword) {
    exists k: ProcessKey :: Survivor(events, pid, k)
  }

  ghost predicate Survivor(events: set<Event>, pid: Dword, k: ProcessKey) {
    k.pid == pid && Exact(k) && Reporting(events, ProcessStart, k) && !Reporting(events, ProcessStop, k)
  }

  /** With a survivor, an untimed stop of the PID; without one, an untimed start and any stop. */
  ghost predicate PidSensitive(events: set<Event>, pid: Dword) {
    if Survives(events, pid) then HasUntimedStop(events, pid)
    else HasUntimedStart(events, pid) && HasStop(events, pid)
  }

  // ---- untimed records in the slot ----

  /** Untimed starts alone: the first one makes an untimed record active if nothing is. */
  lemma {:induction false} UntimedStartsOnly(a: Slot, events: seq<Event>, pid: Dword, b: Slot)
    requires Reaches(a, events, pid, b)
    requires forall e :: e in events && Concerns(e, pid) ==> UntimedStart(e, pid)
    ensures b.known == a.known
    ensures b.running ==
      if a.running == {} && exists e :: e in events && Concerns(e, pid) then {0} else a.running
    decreases events
  {
    if events == [] {
    } else {
      var m :| Moves(a, events[0], pid, m) && Reaches(m, events[1..], pid, b);
      UntimedStartsOnly(m, events[1..], pid, b);
      assert forall e :: e in events <==> e == events[0] || e in events[1..];
    }
  }

  /** If an untimed record is active, it is the only trace of the PID. */
  ghost predicate OnlyTrace(slot: Slot) { 0 in slot.running ==> slot == Slot({}, {0}) }

  lemma UntimedLostStep(a: Slot, e: Event, pid: Dword, b: Slot)
    requires Moves(a, e, pid, b) && OnlyTrace(a) && !UntimedStart(e, pid)
    ensures OnlyTrace(b) && (0 in b.running ==> 0 in a.running && !StopOf(e, pid))
  {
  }

  /** Without untimed starts an active untimed record can only be lost, and any stop loses it. */
  lemma {:induction false} UntimedLost(a: Slot, events: seq<Event>, pid: Dword, b: Slot)
    requires Reaches(a, events, pid, b) && OnlyTrace(a)
    requires forall e :: e in events ==> !UntimedStart(e, pid)
    ensures OnlyTrace(b)
    ensures 0 in b.running ==> 0 in a.running && forall e :: e in events ==> !StopOf(e, pid)
    decreases events
  {
    hide Moves, StopOf, UntimedStart, OnlyTrace;
    if events == [] {
    } else {
      var m :| Moves(a, events[0], pid, m) && Reaches(m, events[1..], pid, b);
      UntimedLostStep(a, events[0], pid, m);
      UntimedLost(m, events[1..], pid, b);
      assert forall e :: e in events <==> e == events[0] || e in events[1..];
    }
  }

  // ---- away from the sensitive case ----

  /** What the events decide about the record of time `time`: a known time is active iff it survives, and
      an untimed record iff nothing survives and an untimed start is there. */
  ghost predicate Expected(events: set<Event>, pid: Dword, time: Qword) {
    if time != 0 then Survivor(events, pid, ProcessKey(pid, time))
    else !Survives(events, pid) && HasUntimedStart(events, pid)
  }

  lemma EventsInSet(events: set<Event>, inputs: seq<Input>)
    requires RunOf(events, inputs)
    ensures forall e :: e in EventsOf(inputs) <==> e in events
  {
    hide AllKept;
    forall e ensures e in EventsOf(inputs) <==> e in events {
      if e in events {
        var i :| 0 <= i < |inputs| && inputs[i].event == e;
        assert EventsOf(inputs)[i] == e;
      }
    }
  }

  /** Nothing survives and nothing starts without a time: nothing is active. */
  lemma NoneLeft(events: set<Event>, inputs: seq<Input>, pid: Dword)
    requires pid != 0 && RunOf(events, inputs) && !Survives(events, pid) && !HasUntimedStart(events, pid)
    ensures SlotOf(Run(inputs), pid).running == {}
  {
    hide Run, Reporting, EventSet, AllKept, Reaches, Reported, SlotOf, UntimedStart;
    WholeRunReaches(inputs, pid);
    EventsInSet(events, inputs);
    UntimedLost(EMPTY_SLOT, EventsOf(inputs), pid, SlotOf(Run(inputs), pid));
    forall time: Qword ensures time !in SlotOf(Run(inputs), pid).running {
      if time != 0 {
        var k := ProcessKey(pid, time);
        RunningSlot(Run(inputs), k);
        ReportedBySet(events, inputs, ProcessStart, k);
        ReportedBySet(events, inputs, ProcessStop, k);
        IdentityHistory(inputs, k);
        assert !Survivor(events, pid, k);
      }
    }
  }

  /** Away from the sensitive case the events decide every record of the PID. */
  lemma PidDecides(events: set<Event>, inputs: seq<Input>, pid: Dword, time: Qword)
    requires pid != 0 && RunOf(events, inputs) && !PidSensitive(events, pid)
    ensures time in SlotOf(Run(inputs), pid).running <==> Expected(events, pid, time)
  {
    hide Run, RunOf, Reporting, SlotOf, ActiveKeys, HasUntimedStop;
    if time != 0 {
      TimedDecides(events, inputs, pid, ProcessKey(pid, time));
    } else if Survives(events, pid) {
      var k: ProcessKey :| Survivor(events, pid, k);
      TimedDecides(events, inputs, pid, k);
      RunConsistent(inputs);
      SlotWellFormed(Run(inputs), pid);
    } else if HasUntimedStart(events, pid) {
      OnlyUntimed(events, inputs, pid);
    } else {
      NoneLeft(events, inputs, pid);
    }
  }

  lemma TimedDecides(events: set<Event>, inputs: seq<Input>, pid: Dword, k: ProcessKey)
    requires k.pid == pid && Exact(k) && RunOf(events, inputs) && !PidSensitive(events, pid)
    ensures k.creationTime in SlotOf(Run(inputs), pid).running <==> Survivor(events, pid, k)
  {
    hide Run, RunOf, Reporting, SlotOf, ActiveKeys, HasUntimedStop;
    assert OrderSensitive(events, k) ==> Survivor(events, pid, k);
    SetDecides(events, inputs, k);
    RunningSlot(Run(inputs), k);
  }

  /** Only untimed starts: one untimed record is active. */
  lemma OnlyUntimed(events: set<Event>, inputs: seq<Input>, pid: Dword)
    requires pid != 0 && RunOf(events, inputs)
    requires !Survives(events, pid) && HasUntimedStart(events, pid) && !HasStop(events, pid)
    ensures SlotOf(Run(inputs), pid).running == {0}
  {
    hide Run, RunOf, SlotOf, Reaches;
    WholeRunReaches(inputs, pid) by {
      RunOfKept(events, inputs);
    }
    EventsInSet(events, inputs);
    forall e | e in events && Concerns(e, pid) ensures UntimedStart(e, pid) {
      assert !StopOf(e, pid);
      StartSurvives(events, pid, e);
    }
    var start :| start in events && UntimedStart(start, pid);
    assert Concerns(start, pid);
    UntimedStartsOnly(EMPTY_SLOT, EventsOf(inputs), pid, SlotOf(Run(inputs), pid));
  }

  lemma StartSurvives(events: set<Event>, pid: Dword, e: Event)
    requires pid != 0 && e in events && e.kind.ProcessStart? && e.process.pid == pid && !HasStop(events, pid)
    ensures e.process.creationTime == 0 || Survives(events, pid)
  {
    assert e.process.creationTime == 0 || Survivor(events, pid, e.process) by {
      assert forall stop :: stop in events ==> !StopOf(stop, pid);
    }
  }

  lemma RunOfKept(events: set<Event>, inputs: seq<Input>)
    requires RunOf(events, inputs)
    ensures AllKept(inputs)
  {
  }

  // ---- the two orders ----

  /** A run over a set of events with those of a part first, cut where the part ends. */
  lemma PartFirstRun(events: set<Event>, part: set<Event>, pid: Dword) returns (es: seq<Event>, cut: nat, m: Slot)
    requires part <= events && Room(|events|) && pid != 0
    ensures cut <= |es| && RunOf(events, Inputs(es)) && RunOf(part, Inputs(es[..cut]))
    ensures m == SlotOf(Run(Inputs(es[..cut])), pid)
    ensures Reaches(EMPTY_SLOT, es[..cut], pid, m) && Reaches(m, es[cut..], pid, SlotOf(Run(Inputs(es)), pid))
    ensures forall e :: (e in es[..cut] <==> e in part) && (e in es[cut..] <==> e in events - part)
  {
    hide Run, AllKept, EventSet, SlotOf, Room, Reaches;
    es := PartFirst(events, part);
    cut := |part|;
    forall e ensures (e in es[..cut] <==> e in part) && (e in es[cut..] <==> e in events - part) {
      if e in events {
        var i :| 0 <= i < |es| && es[i] == e;
        assert if i < cut then es[..cut][i] == e else es[cut..][i - cut] == e;
      }
    }
    LessRoom(|events|, cut);
    RunIsOf(es, events);
    RunIsOf(es[..cut], part);
    m := SlotOf(Run(Inputs(es[..cut])), pid);
    assert Inputs(es)[..cut] == Inputs(es[..cut]);
    assert EventsOf(Inputs(es[..cut])) == es[..cut] && EventsOf(Inputs(es)[cut..]) == es[cut..];
    WholeRunReaches(Inputs(es[..cut]), pid);
    RunReaches(Inputs(es), cut, pid);
  }

  /** The untimed starts last: with nothing left by then, they leave an untimed record active. */
  lemma UntimedLastRun(events: set<Event>, pid: Dword) returns (inputs: seq<Input>)
    requires pid != 0 && Room(|events|) && !Survives(events, pid) && HasUntimedStart(events, pid)
    ensures RunOf(events, inputs) && 0 in SlotOf(Run(inputs), pid).running
  {
    hide Run, RunOf, Room, SlotOf, Reaches;
    var others := set e | e in events && !UntimedStart(e, pid);
    var es, cut, m := PartFirstRun(events, others, pid);
    inputs := Inputs(es);
    SameSurvivors(events, others, pid);
    NoneLeft(others, Inputs(es[..cut]), pid);
    var start :| start in events && UntimedStart(start, pid);
    assert start in es[cut..] && Concerns(start, pid);
    UntimedStartsOnly(m, es[cut..], pid, SlotOf(Run(inputs), pid));
  }

  /** Timed starts and stops alone make survivors. */
  lemma SameSurvivors(events: set<Event>, others: set<Event>, pid: Dword)
    requires others == set e | e in events && !UntimedStart(e, pid)
    ensures Survives(others, pid) ==> Survives(events, pid)
  {
    if k: ProcessKey :| Survivor(others, pid, k) {
      var e :| e in others && e.kind == ProcessStart && e.process == k;
      assert e in events;
      assert forall stop :: stop in events && stop.kind == ProcessStop ==> stop in others;
      assert Survivor(events, pid, k);
    }
  }

  /** The untimed starts first: whatever stops the PID, or times the record, ends it. */
  lemma UntimedFirstRun(events: set<Event>, pid: Dword) returns (inputs: seq<Input>)
    requires pid != 0 && Room(|events|) && HasStop(events, pid)
    ensures RunOf(events, inputs) && 0 !in SlotOf(Run(inputs), pid).running
  {
    hide Run, RunOf, Room, SlotOf, Reaches;
    var starts := set e | e in events && UntimedStart(e, pid);
    var es, cut, m := PartFirstRun(events, starts, pid);
    inputs := Inputs(es);
    UntimedStartsOnly(EMPTY_SLOT, es[..cut], pid, m);
    var stop :| stop in events && StopOf(stop, pid);
    assert stop in es[cut..];
    UntimedLost(m, es[cut..], pid, SlotOf(Run(inputs), pid));
  }

  /** For one PID: over the runs of a set of events, which of its records end up active depends on the
      order iff the set is sensitive for the PID. */
  lemma PidOrderMattersIff(events: set<Event>, pid: Dword)
    requires pid != 0 && Room(|events|)
    ensures
      (exists a, b :: RunOf(events, a) && RunOf(events, b) &&
         SlotOf(Run(a), pid).running != SlotOf(Run(b), pid).running)
      <==> PidSensitive(events, pid)
  {
    hide Run, RunOf, SlotOf, Room, Survives, HasUntimedStart, HasUntimedStop, HasStop, ActiveKeys;
    if PidSensitive(events, pid) {
      var a, b := TwoOutcomes(events, pid);
    } else {
      forall a, b | RunOf(events, a) && RunOf(events, b)
        ensures SlotOf(Run(a), pid).running == SlotOf(Run(b), pid).running
      {
        PidAgrees(events, a, b, pid);
      }
    }
  }

  lemma TwoOutcomes(events: set<Event>, pid: Dword) returns (a: seq<Input>, b: seq<Input>)
    requires pid != 0 && Room(|events|) && PidSensitive(events, pid)
    ensures RunOf(events, a) && RunOf(events, b)
    ensures SlotOf(Run(a), pid).running != SlotOf(Run(b), pid).running
  {
    hide Run, RunOf, SlotOf, Room, HasUntimedStart, HasUntimedStop, HasStop, ActiveKeys, Reporting;
    if Survives(events, pid) {
      var k: ProcessKey :| Survivor(events, pid, k);
      a := StopsFirstRun(events, k);
      b := StartFirstRun(events, k);
      RunningSlot(Run(a), k);
      RunningSlot(Run(b), k);
    } else {
      a := UntimedLastRun(events, pid);
      b := UntimedFirstRun(events, pid);
    }
  }

  lemma PidAgrees(events: set<Event>, a: seq<Input>, b: seq<Input>, pid: Dword)
    requires pid != 0 && RunOf(events, a) && RunOf(events, b) && !PidSensitive(events, pid)
    ensures SlotOf(Run(a), pid).running == SlotOf(Run(b), pid).running
  {
    hide Run, RunOf, SlotOf, PidSensitive, Expected;
    forall time ensures time in SlotOf(Run(a), pid).running <==> time in SlotOf(Run(b), pid).running {
      PidDecides(events, a, pid, time);
      PidDecides(events, b, pid, time);
    }
  }

  /** Two runs over the same set of events - any interleaving, permutation or duplication of the ETW and
      Toolhelp streams - leave the same active records, and as many, if no PID is sensitive. */
  lemma SourcesCommute(a: seq<Input>, b: seq<Input>)
    requires RunOf(EventSet(a), a) && RunOf(EventSet(a), b)
    requires forall pid: Dword :: pid != 0 ==> !PidSensitive(EventSet(a), pid)
    ensures Running(Run(a)) == Running(Run(b))
    ensures (forall e :: e in EventSet(a) && IsProcessEvent(e) ==> e.process.pid != 0) ==>
      Run(a).activeCount == Run(b).activeCount
  {
    hide Run, RunOf, SlotOf, PidSensitive, Running, EventSet;
    RunningSets(Run(a), Run(b));
    if forall e :: e in EventSet(a) && IsProcessEvent(e) ==> e.process.pid != 0 {
      SetCounted(EventSet(a), a);
      SetCounted(EventSet(a), b);
    }
    forall pid: Dword | pid != 0 ensures SlotOf(Run(a), pid).running == SlotOf(Run(b), pid).running {
      PidAgrees(EventSet(a), a, b, pid);
    }
  }

  lemma SetCounted(events: set<Event>, inputs: seq<Input>)
    requires RunOf(events, inputs) && forall e :: e in events && IsProcessEvent(e) ==> e.process.pid != 0
    ensures Run(inputs).activeCount == |Running(Run(inputs))|
  {
    hide Run, AllKept, Running;
    forall i | 0 <= i < |inputs| ensures inputs[i].event in events {
    }
    RunningCounted(inputs);
  }

  lemma RunningSets(s: StoreState, t: StoreState)
    ensures Running(s) == Running(t) <==>
      forall pid: Dword | pid != 0 :: SlotOf(s, pid).running == SlotOf(t, pid).running
  {
    hide SlotOf;
    assert forall k :: k in Running(s) || k in Running(t) ==> k.pid != 0;
    hide Running;
    if forall pid: Dword | pid != 0 :: SlotOf(s, pid).running == SlotOf(t, pid).running {
      forall k ensures k in Running(s) <==> k in Running(t) {
        if k.pid != 0 {
          RunningSlot(s, k);
          RunningSlot(t, k);
        }
      }
    }
    if Running(s) == Running(t) {
      forall pid: Dword | pid != 0 ensures SlotOf(s, pid).running == SlotOf(t, pid).running {
        forall time ensures time in SlotOf(s, pid).running <==> time in SlotOf(t, pid).running {
          RunningSlot(s, ProcessKey(pid, time));
          RunningSlot(t, ProcessKey(pid, time));
        }
      }
    }
  }

  /** For all PIDs: the sources commute on a set of events iff it is sensitive for none. */
  lemma SourcesCommuteIff(events: set<Event>)
    requires Room(|events|)
    ensures (forall a, b | RunOf(events, a) && RunOf(events, b) :: Running(Run(a)) == Running(Run(b))) <==>
      forall pid: Dword | pid != 0 :: !PidSensitive(events, pid)
  {
    hide Run, Running, Room, PidSensitive, AllKept, SlotOf;
    if forall pid: Dword | pid != 0 :: !PidSensitive(events, pid) {
      forall a, b | RunOf(events, a) && RunOf(events, b) ensures Running(Run(a)) == Running(Run(b)) {
        SourcesCommute(a, b);
      }
    } else {
      var pid: Dword :| pid != 0 && PidSensitive(events, pid);
      var a, b := TwoOutcomes(events, pid);
      RunningSets(Run(a), Run(b));
    }
  }

  // ---- an instance ----

  const UNKNOWN_START := NO_EVENT.(process := ProcessKey(8, 0))
  const KNOWN_STOP := NO_EVENT.(kind := ProcessStop, process := ProcessKey(8, 7))

  /** A start without a time and the stop of a process of its PID: in one order nothing stays active, in
      the other the untimed record does, and the active counts differ. */
  lemma UntimedStartOrderMatters()
    ensures var (a, b) := (Inputs([UNKNOWN_START, KNOWN_STOP]), Inputs([KNOWN_STOP, UNKNOWN_START]));
      && RunOf({UNKNOWN_START, KNOWN_STOP}, a) && RunOf({UNKNOWN_START, KNOWN_STOP}, b)
      && Running(Run(a)) == {} && Running(Run(b)) == {ProcessKey(8, 0)}
      && Run(a).activeCount == 0 && Run(b).activeCount == 1
  {
    hide Run, AllKept, EventSet, Running, SlotOf;
    var (x, y) := (UNKNOWN_START, KNOWN_STOP);
    FirstBlock(2);
    RunIsOf([x, y], {x, y});
    RunIsOf([y, x], {x, y});
    var (a, b) := (Run(Inputs([x, y])), Run(Inputs([y, x])));
    var m := PairRun(x, y);
    var n := PairRun(y, x);
    assert SlotOf(a, 8) == Slot({7}, {}) && SlotOf(b, 8) == Slot({7}, {0});
    forall k ensures k !in Running(a) && (k in Running(b) <==> k == ProcessKey(8, 0)) {
      if k.pid == 8 {
        RunningSlot(a, k);
        RunningSlot(b, k);
      }
    }
    assert Running(a) == {} && Running(b) == {ProcessKey(8, 0)};
  }

  /** Two process events of PID 8. */
  lemma PairRun(x: Event, y: Event) returns (m: Slot)
    requires Concerns(x, 8) && Concerns(y, 8) && AllKept(Inputs([x, y]))
    ensures var s := Run(Inputs([x, y]));
      && SlotStep(EMPTY_SLOT, x, m) && SlotStep(m, y, SlotOf(s, 8))
      && (forall k :: k in Running(s) ==> k.pid == 8) && s.activeCount == |Running(s)|
  {
    hide Run, AllKept, Running, SlotOf, Reaches, SlotStep;
    var (inputs, events) := (Inputs([x, y]), [x, y]);
    assert EventsOf(inputs) == events;
    RunningCounted(inputs);
    WholeRunReaches(inputs, 8);
    m := ReachesTwo(EMPTY_SLOT, x, y, 8, SlotOf(Run(inputs), 8));
    forall k: ProcessKey | k.pid != 8 ensures k !in Running(Run(inputs)) {
      if k.pid == 0 {
        NoneOfPidZero(Run(inputs), k);
      } else {
        WholeRunReaches(inputs, k.pid);
        UntimedStartsOnly(EMPTY_SLOT, events, k.pid, SlotOf(Run(inputs), k.pid));
        RunningSlot(Run(inputs), k);
      }
    }
  }

  lemma ReachesTwo(a: Slot, x: Event, y: Event, pid: Dword, b: Slot) returns (m: Slot)
    requires Reaches(a, [x, y], pid, b)
    ensures Moves(a, x, pid, m) && Moves(m, y, pid, b)
  {
    hide Moves;
    assert [x, y] == [x] + [y];
    m := ReachesConcat(a, [x], [y], pid, b);
    assert [x][1..] == [] && [y][1..] == [];
  }
}
