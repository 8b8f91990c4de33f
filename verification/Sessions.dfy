/** Whole sessions: any schedule of process polls, pushes of other producers and pops that feed the store.
    SessionSteps shows the methods taking these steps. */
module Sessions {
  import opened WideStrings
  import opened Events
  import opened Snapshots
  import opened StoreModel
  import opened Sorting
  import opened Reconciliation
  import opened PolledRuns
  import opened Draining
  import opened UntimedProcesses
  import opened MixedTimes
  import Detection
  import SourceOrder
  import StoreHistory

  /** So far: the sorted snapshots of the successful polls, the events other producers pushed, those
      queued, and the calls of event_store_add. */
  datatype Session =
    Session(taken: seq<seq<SnapshotEntry>>, pushed: seq<Event>, queue: seq<Event>, fed: seq<Input>)

  const OPENED := Session([], [], [], [])

  function Store(s: Session): StoreState { Run(s.fed) }

  datatype Step =
    | Poll(captured: Option<seq<SnapshotEntry>>, memory: nat -> bool)
    | Push(event: Event)
    | Drain(count: nat, allocate: Allocator)

  /** One step; `clocks(n)` is the clock of the n-th successful poll.  A push without memory for its node
      is no step.  A drain may pop only some of the queue before another step comes in between: drains
      compose. */
  ghost predicate Next(locale: Detection.Locale, clocks: nat -> Clock, s: Session, step: Step, t: Session) {
    match step
    case Poll(None, _) => t == s
    case Poll(Some(captured), memory) =>
      var n := |s.taken|;
      && |t.taken| == n + 1 && t.taken[..n] == s.taken && SortOf(CompareEntries, captured, t.taken[n])
      && t.queue == s.queue + Delivered(PollEvents(Previous(t.taken, n), t.taken[n], n > 0, clocks(n)), memory)
      && t.pushed == s.pushed && t.fed == s.fed
    case Push(event) => t == s.(pushed := s.pushed + [event], queue := s.queue + [event])
    case Drain(count, allocate) =>
      && count <= |s.queue|
      && t == s.(queue := s.queue[count..], fed := s.fed + DrainInputs(locale, Store(s), s.queue[..count], allocate))
  }

  /** No event of a poll is lost for want of a queue node. */
  ghost predicate Kept(step: Step) { step.Poll? ==> forall i :: step.memory(i) }

  ghost predicate Behaviour(locale: Detection.Locale, clocks: nat -> Clock, states: seq<Session>, steps: seq<Step>) {
    && |states| == |steps| + 1 && states[0] == OPENED
    && forall i :: 0 <= i < |steps| ==> Next(locale, clocks, states[i], steps[i], states[i + 1])
  }

  ghost predicate Lossless(steps: seq<Step>) { forall i :: 0 <= i < |steps| ==> Kept(steps[i]) }

  /** Fallback mode: all process events come from the polls. */
  ghost predicate Fallback(s: Session) { OnlyProcessEvents(s.pushed) == [] }

  // ---- conservation ----

  /** The process events that reached the store, followed by those still queued. */
  function Flow(s: Session): seq<Event> { ProcessEvents(s.fed) + OnlyProcessEvents(s.queue) }

  /** They are an interleaving of those of the polls and those pushed. */
  ghost predicate Accounted(clocks: nat -> Clock, s: Session) {
    Interleaves(Flow(s), RunEvents(s.taken, clocks), OnlyProcessEvents(s.pushed))
  }

  /** `all` merges `a` and `b`, each in its own order. */
  ghost predicate Interleaves(all: seq<Event>, a: seq<Event>, b: seq<Event>)
    decreases |all|
  {
    if all == [] then a == [] && b == []
    else
      var (before, last) := (all[..|all| - 1], all[|all| - 1]);
      || (a != [] && a[|a| - 1] == last && Interleaves(before, a[..|a| - 1], b))
      || (b != [] && b[|b| - 1] == last && Interleaves(before, a, b[..|b| - 1]))
  }

  lemma InterleavesNext(all: seq<Event>, a: seq<Event>, b: seq<Event>, x: Event)
    requires Interleaves(all, a, b)
    ensures Interleaves(all + [x], a + [x], b) && Interleaves(all + [x], a, b + [x])
  {
  }

  lemma {:induction false} InterleavesMore(all: seq<Event>, a: seq<Event>, b: seq<Event>, more: seq<Event>)
    requires Interleaves(all, a, b)
    ensures Interleaves(all + more, a + more, b) && Interleaves(all + more, a, b + more)
    decreases |more|
  {
    hide Interleaves;
    if more == [] {
      assert all + more == all && a + more == a && b + more == b;
    } else {
      var (before, x) := (more[..|more| - 1], more[|more| - 1]);
      InterleavesMore(all, a, b, before);
      InterleavesNext(all + before, a + before, b, x);
      InterleavesNext(all + before, a, b + before, x);
      assert all + more == all + before + [x] && a + more == a + before + [x] && b + more == b + before + [x];
    }
  }

  lemma {:induction false} InterleavesOne(all: seq<Event>, a: seq<Event>)
    requires Interleaves(all, a, [])
    ensures all == a
    decreases |all|
  {
    if all == [] {
    } else {
      InterleavesOne(all[..|all| - 1], a[..|a| - 1]);
    }
  }

  /** Membership in an interleaving. */
  lemma {:induction false} InterleavesMentions(all: seq<Event>, a: seq<Event>, b: seq<Event>, kind: EventType,
                                               k: ProcessKey)
    requires Interleaves(all, a, b)
    ensures Mentions(all, kind, k) <==> Mentions(a, kind, k) || Mentions(b, kind, k)
    decreases |all|
  {
    hide IsTransition;
    if all == [] {
    } else {
      var (before, last) := (all[..|all| - 1], all[|all| - 1]);
      if a != [] && a[|a| - 1] == last && Interleaves(before, a[..|a| - 1], b) {
        InterleavesMentions(before, a[..|a| - 1], b, kind, k);
      } else {
        InterleavesMentions(before, a, b[..|b| - 1], kind, k);
      }
    }
  }

  lemma {:induction false} InterleavesTimed(all: seq<Event>, a: seq<Event>, b: seq<Event>, pid: Dword)
    requires Interleaves(all, a, b) && NoUntimedStop(a, pid) && NoUntimedStop(b, pid)
    ensures NoUntimedStop(all, pid)
    decreases |all|
  {
    hide StoreHistory.UntimedStop;
    if all == [] {
    } else {
      var (before, last) := (all[..|all| - 1], all[|all| - 1]);
      if a != [] && a[|a| - 1] == last && Interleaves(before, a[..|a| - 1], b) {
        InterleavesTimed(before, a[..|a| - 1], b, pid);
      } else {
        InterleavesTimed(before, a, b[..|b| - 1], pid);
      }
    }
  }

  lemma PollAccounted(locale: Detection.Locale, clocks: nat -> Clock, s: Session, step: Step, t: Session)
    requires step.Poll? && Accounted(clocks, s) && Kept(step) && Next(locale, clocks, s, step, t)
    ensures Accounted(clocks, t)
  {
    hide PollEvents, ProcessEvents, Delivered, SortOf, OnlyProcessEvents, Interleaves;
    if step.captured.Some? {
      var n := |s.taken|;
      var polled := PollEvents(Previous(t.taken, n), t.taken[n], n > 0, clocks(n));
      AllDelivered(polled, step.memory);
      PolledAreProcess(Previous(t.taken, n), t.taken[n], n > 0, clocks(n));
      OnlyProcessConcat(s.queue, polled);
      InterleavesMore(Flow(s), RunEvents(s.taken, clocks), OnlyProcessEvents(s.pushed), polled);
      assert ProcessEvents(s.fed) + (OnlyProcessEvents(s.queue) + polled) == Flow(s) + polled;
    }
  }

  lemma PushAccounted(clocks: nat -> Clock, s: Session, e: Event)
    requires Accounted(clocks, s)
    ensures Accounted(clocks, s.(pushed := s.pushed + [e], queue := s.queue + [e]))
  {
    hide ProcessEvents, RunEvents, OnlyProcessEvents, Interleaves;
    var one := OnlyProcessEvents([e]);
    OnlyProcessConcat(s.queue, [e]);
    OnlyProcessConcat(s.pushed, [e]);
    InterleavesMore(Flow(s), RunEvents(s.taken, clocks), OnlyProcessEvents(s.pushed), one);
    assert ProcessEvents(s.fed) + (OnlyProcessEvents(s.queue) + one) == Flow(s) + one;
  }

  lemma DrainAccounted(locale: Detection.Locale, s: Session, count: nat, allocate: Allocator)
    requires count <= |s.queue|
    ensures var inputs := DrainInputs(locale, Store(s), s.queue[..count], allocate);
      Flow(s.(queue := s.queue[count..], fed := s.fed + inputs)) == Flow(s)
  {
    hide ProcessEvents, DrainInputs, Run, OnlyProcessEvents;
    var inputs := DrainInputs(locale, Store(s), s.queue[..count], allocate);
    DrainFeedsQueue(locale, Store(s), s.queue[..count], allocate);
    ProcessEventsConcat(s.fed, inputs);
    OnlyProcessConcat(s.queue[..count], s.queue[count..]);
    assert s.queue == s.queue[..count] + s.queue[count..];
  }

  lemma NextAccounted(locale: Detection.Locale, clocks: nat -> Clock, s: Session, step: Step, t: Session)
    requires Accounted(clocks, s) && Kept(step) && Next(locale, clocks, s, step, t)
    ensures Accounted(clocks, t)
  {
    hide Interleaves, DrainInputs, SortOf, PollEvents, Delivered, Store, Flow;
    match step
    case Poll(_, _) => PollAccounted(locale, clocks, s, step, t);
    case Push(event) => PushAccounted(clocks, s, event);
    case Drain(count, allocate) => DrainAccounted(locale, s, count, allocate);
  }

  /** At any moment of a session the process events that reached the store, followed by those queued, are
      an interleaving of the events of its successful polls and of the process events pushed beside them. */
  lemma {:induction false} ProcessEventsConserved(locale: Detection.Locale, clocks: nat -> Clock,
                                                  states: seq<Session>, steps: seq<Step>, n: nat)
    requires Behaviour(locale, clocks, states, steps) && Lossless(steps) && n < |states|
    ensures Accounted(clocks, states[n])
  {
    hide Accounted, Next, Kept;
    if n == 0 {
      OpenedAccounted(clocks);
    } else {
      ProcessEventsConserved(locale, clocks, states, steps, n - 1);
      NextAccounted(locale, clocks, states[n - 1], steps[n - 1], states[n]);
    }
  }

  lemma OpenedAccounted(clocks: nat -> Clock)
    ensures Accounted(clocks, OPENED)
  {
  }

  /** In fallback mode they are exactly the events of the polls, in order. */
  lemma PollsAccounted(locale: Detection.Locale, clocks: nat -> Clock, states: seq<Session>, steps: seq<Step>, n: nat)
    requires Behaviour(locale, clocks, states, steps) && Lossless(steps) && n < |states| && Fallback(states[n])
    ensures Flow(states[n]) == RunEvents(states[n].taken, clocks)
  {
    hide Behaviour, Lossless, Interleaves, RunEvents, Flow;
    ProcessEventsConserved(locale, clocks, states, steps, n);
    InterleavesOne(Flow(states[n]), RunEvents(states[n].taken, clocks));
  }

  /** The store has processed everything: the queue is drained and no record failed. */
  ghost predicate Drained(s: Session) { s.queue == [] && AllKept(s.fed) }

  lemma DrainedFlow(s: Session)
    requires Drained(s)
    ensures Flow(s) == ProcessEvents(s.fed)
  {
    hide ProcessEvents, AllKept;
  }

  ghost predicate Settled(s: Session) { Drained(s) && s.taken != [] && Fallback(s) }

  lemma SettledFed(locale: Detection.Locale, clocks: nat -> Clock, states: seq<Session>, steps: seq<Step>, n: nat)
    requires Behaviour(locale, clocks, states, steps) && Lossless(steps) && n < |states| && Settled(states[n])
    ensures Fed(states[n].fed, states[n].taken, clocks)
  {
    hide Behaviour, Lossless, RunEvents, AllKept, ProcessEvents, Fallback, Flow;
    PollsAccounted(locale, clocks, states, steps, n);
    DrainedFlow(states[n]);
  }

  // ---- fallback mode ----

  /** Polls, queue, drains and store over a whole session: whenever it is settled, the store's active
      identities of a PID whose entries carry times equal those of the last snapshot, if and only if
      none of the latter vanished and came back. */
  lemma FallbackPipeline(locale: Detection.Locale, clocks: nat -> Clock, states: seq<Session>, steps: seq<Step>,
                         n: nat, pid: Dword)
    requires Behaviour(locale, clocks, states, steps) && Lossless(steps) && n < |states| && Settled(states[n])
    requires pid != 0 && KnownThroughout(states[n].taken, pid)
    ensures var s := states[n];
      (forall k: ProcessKey | k.pid == pid :: k in StoreHistory.ActiveKeys(Store(s)) <==> InLast(s.taken, k)) <==>
      (forall k: ProcessKey | k.pid == pid && InLast(s.taken, k) :: !Vanished(s.taken, k))
  {
    hide Behaviour, Lossless, Fed, KnownThroughout, InLast, Vanished, AllKept, StoreHistory.ActiveKeys, Run;
    SettledFed(locale, clocks, states, steps, n);
    StoreMirrorsSnapshot(states[n].fed, states[n].taken, clocks, pid);
  }

  /** And a PID whose entries never carry times is active iff the last snapshot lists it. */
  lemma FallbackUntimed(locale: Detection.Locale, clocks: nat -> Clock, states: seq<Session>, steps: seq<Step>,
                        n: nat, pid: Dword)
    requires Behaviour(locale, clocks, states, steps) && Lossless(steps) && n < |states| && Settled(states[n])
    requires pid != 0 && UntimedThroughout(states[n].taken, pid)
    ensures var s := states[n]; PidActive(Store(s), pid) <==> ListsPid(s.taken[|s.taken| - 1], pid)
  {
    hide Behaviour, Lossless, Fed, UntimedThroughout, ListsPid, PidActive, AllKept, Run;
    SettledFed(locale, clocks, states, steps, n);
    UntimedMirrors(states[n].fed, states[n].taken, clocks, pid);
  }

  /** And one that carries a time in some snapshots only, after clean polls, likewise. */
  lemma FallbackMixed(locale: Detection.Locale, clocks: nat -> Clock, states: seq<Session>, steps: seq<Step>,
                      n: nat, pid: Dword)
    requires Behaviour(locale, clocks, states, steps) && Lossless(steps) && n < |states| && Settled(states[n])
    requires pid != 0 && OnceThroughout(states[n].taken, pid) && Clean(states[n].taken, pid)
    ensures var s := states[n]; PidActive(Store(s), pid) <==> ListsPid(s.taken[|s.taken| - 1], pid)
  {
    hide Behaviour, Lossless, Fed, OnceThroughout, Clean, ListsPid, PidActive, AllKept, Run;
    SettledFed(locale, clocks, states, steps, n);
    MixedMirrors(states[n].fed, states[n].taken, clocks, pid);
  }

  // ---- ordinary mode ----

  /** ETW, or any other producer, beside the polls: once everything is drained, a process is active iff
      some snapshot held it or its start was pushed, and it never vanished from the snapshots nor was its
      stop pushed - in any schedule, if every time of the PID is known to the polls and in pushed stops. */
  lemma OrdinaryPipeline(locale: Detection.Locale, clocks: nat -> Clock, states: seq<Session>, steps: seq<Step>,
                         n: nat, k: ProcessKey)
    requires Behaviour(locale, clocks, states, steps) && Lossless(steps) && n < |states| && Drained(states[n])
    requires Exact(k) && KnownThroughout(states[n].taken, k.pid) && NoUntimedStop(states[n].pushed, k.pid)
    ensures var s := states[n];
      k in StoreHistory.ActiveKeys(Store(s)) <==>
        && (Seen(s.taken, k) || Mentions(s.pushed, ProcessStart, k))
        && !Vanished(s.taken, k) && !Mentions(s.pushed, ProcessStop, k)
  {
    hide Behaviour, Lossless, Interleaves, RunEvents, Flow, OnlyProcessEvents, ProcessEvents, Mentions, Seen, Vanished,
      NoUntimedStop, StoreHistory.StopTimesKnown, StoreHistory.ActiveKeys, Run, KnownThroughout;
    var s := states[n];
    var (polled, others) := (RunEvents(s.taken, clocks), OnlyProcessEvents(s.pushed));
    ProcessEventsConserved(locale, clocks, states, steps, n);
    DrainedFlow(s);
    RunTimed(s.taken, clocks, k.pid);
    PushedTimed(s.pushed, k.pid);
    InterleavesTimed(Flow(s), polled, others, k.pid);
    InputsTimed(s.fed, k.pid);
    KeptReported(s.fed, ProcessStart, k);
    KeptReported(s.fed, ProcessStop, k);
    InterleavesMentions(Flow(s), polled, others, ProcessStart, k);
    InterleavesMentions(Flow(s), polled, others, ProcessStop, k);
    OnlyProcessMentions(s.pushed, ProcessStart, k);
    OnlyProcessMentions(s.pushed, ProcessStop, k);
    RunMentions(s.taken, clocks, k);
    StoreHistory.ActiveIffStartedNotStopped(s.fed, k);
  }

  lemma {:induction false} OnlyProcessMentions(events: seq<Event>, kind: EventType, k: ProcessKey)
    requires kind.ProcessStart? || kind.ProcessStop?
    ensures Mentions(OnlyProcessEvents(events), kind, k) <==> Mentions(events, kind, k)
  {
    if events == [] {
    } else {
      var before := events[..|events| - 1];
      OnlyProcessMentions(before, kind, k);
      MentionsAppend(OnlyProcessEvents(before), events[|events| - 1], kind, k);
    }
  }

  lemma {:induction false} PushedTimed(events: seq<Event>, pid: Dword)
    requires NoUntimedStop(events, pid)
    ensures NoUntimedStop(OnlyProcessEvents(events), pid)
  {
    hide StoreHistory.UntimedStop, IsProcessEvent;
    if events == [] {
    } else {
      PushedTimed(events[..|events| - 1], pid);
    }
  }

  // ---- an identity that returns ----

  const RETURNING := SnapshotEntry(ProcessKey(8, 5), 0, [], [])
  const RETURN := [[RETURNING], [], [RETURNING]]

  /** Seen, gone and seen again: the last snapshot holds the identity, and the store does not. */
  lemma ReturnIsMissed(clocks: nat -> Clock)
    ensures var inputs := SourceOrder.Inputs(RunEvents(RETURN, clocks));
      && Fed(inputs, RETURN, clocks)
      && InLast(RETURN, RETURNING.key) && RETURNING.key !in StoreHistory.ActiveKeys(Run(inputs))
  {
    hide RunEvents, StoreHistory.ActiveKeys, Run, Fed, Vanished, InLast, KnownThroughout;
    var inputs := SourceOrder.Inputs(RunEvents(RETURN, clocks));
    ReturnVanished();
    CanBeFed(RETURN, clocks);
    ActiveIffNeverVanished(inputs, RETURN, clocks, RETURNING.key);
  }

  lemma ReturnVanished()
    ensures Vanished(RETURN, RETURNING.key) && InLast(RETURN, RETURNING.key) && KnownThroughout(RETURN, 8)
  {
    assert RETURN[0][0].key == RETURNING.key && RETURN[2][0].key == RETURNING.key;
    assert RETURNING.key in Keys(RETURN[0]) && RETURNING.key in Keys(RETURN[2]);
    assert Gone(RETURN[1 - 1], RETURN[1], RETURNING.key);
  }
}
