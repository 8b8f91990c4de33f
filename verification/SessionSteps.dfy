/** The poller and the window at work together: every sequence of calls of ProcessMonitor.Poll,
    EventQueue.Push and MainWindow.DrainEvents is a session. */
module SessionSteps {
  import opened WideStrings
  import opened Events
  import opened Snapshots
  import opened StoreModel
  import opened Draining
  import opened Sorting
  import opened Sessions
  import opened ProcessMonitors
  import opened EventStores
  import opened EventQueues
  import opened Gui
  import Detection
  import StoreInvariants
  import Views

  /** What the monitor remembers after these polls. */
  ghost predicate Remembers(monitor: ProcessMonitor, taken: seq<seq<SnapshotEntry>>)
    reads monitor
  {
    && monitor.Valid() && monitor.initialized == (taken != [])
    && monitor.previous == if taken == [] then [] else taken[|taken| - 1]
  }

  /** The objects are in this state of the session. */
  ghost predicate Represents(monitor: ProcessMonitor, window: MainWindow, s: Session)
    reads monitor, window, window.store, window.store.events, window.store.processes, window.queue, window.queue.Repr
  {
    && Remembers(monitor, s.taken) && monitor !in window.queue.Repr
    && window.Valid() && window.queue.initialized
    && window.queue.Contents() == s.queue && window.store.Abstract() == Store(s)
  }

  // ---- one call ----

  lemma PollNext(locale: Detection.Locale, clocks: nat -> Clock, s: Session, captured: seq<SnapshotEntry>,
                 memory: nat -> bool, current: seq<SnapshotEntry>)
    requires SortOf(CompareEntries, captured, current)
    ensures var n := |s.taken|;
      var previous := if s.taken == [] then [] else s.taken[n - 1];
      var delivered := Delivered(PollEvents(previous, current, s.taken != [], clocks(n)), memory);
      Next(locale, clocks, s, Poll(Some(captured), memory),
           s.(taken := s.taken + [current], queue := s.queue + delivered))
  {
  }

  lemma QueueInside(queue: EventQueue)
    requires queue.Valid()
    ensures queue in queue.Repr
  {
  }

  method PollStep(monitor: ProcessMonitor, window: MainWindow, captured: Option<seq<SnapshotEntry>>,
                  clocks: nat -> Clock, memory: nat -> bool, clock: Clock, ghost s: Session)
    returns (ghost t: Session)
    requires Represents(monitor, window, s) && clock == clocks(|s.taken|)
    modifies monitor, window.queue.Repr
    ensures Represents(monitor, window, t) && fresh(window.queue.Repr - old(window.queue.Repr))
    ensures unchanged(window.store)
    ensures Next(window.Locale(), clocks, s, Poll(captured, memory), t)
  {
    hide EventQueue.Valid, EventQueue.Contents, EventStore.Abstract, StoreInvariants.Consistent, PollEvents, SortOf,
      Delivered;
    var ok := monitor.Poll(window.queue, captured, clock, memory);
    QueueInside(window.queue);
    if ok {
      PollNext(window.Locale(), clocks, s, captured.value, memory, monitor.previous);
      ghost var emitted :=
        PollEvents(old(monitor.previous), monitor.previous, old(monitor.initialized), clock);
      t := s.(taken := s.taken + [monitor.previous], queue := s.queue + Delivered(emitted, memory));
    } else {
      t := s;
    }
  }

  /** push_event by another producer; without memory nothing happens. */
  method PushStep(monitor: ProcessMonitor, window: MainWindow, event: Event, memory: bool, ghost s: Session)
    returns (ghost t: Session)
    requires Represents(monitor, window, s)
    modifies window.queue.Repr
    ensures Represents(monitor, window, t) && fresh(window.queue.Repr - old(window.queue.Repr))
    ensures unchanged(window.store)
    ensures t == if memory then AllPushed(s, [event]) else s
  {
    hide EventQueue.Valid, EventQueue.Contents, EventStore.Abstract, StoreInvariants.Consistent;
    var ok, post := window.queue.Push(event, memory);
    QueueInside(window.queue);
    t := if memory then AllPushed(s, [event]) else s;
  }

  /** A session after these pushes. */
  function AllPushed(s: Session, events: seq<Event>): Session {
    s.(pushed := s.pushed + events, queue := s.queue + events)
  }

  /** What arrives in time for the drain that begins now. */
  function Arrived(s: Session, arrivals: seq<seq<Event>>): seq<Event> {
    PoppedInAll(s.queue, arrivals, 0)[|s.queue|..]
  }

  /** A session after a drain, when other threads push `arrivals[i]` before pop number i. */
  ghost function AllDrained(locale: Detection.Locale, s: Session, arrivals: seq<seq<Event>>, allocate: Allocator)
    : Session
  {
    var u := AllPushed(s, Arrived(s, arrivals));
    u.(queue := [], fed := u.fed + DrainInputs(locale, Store(s), u.queue, allocate))
  }

  lemma DrainedStore(locale: Detection.Locale, s: Session, popped: seq<Event>, allocate: Allocator)
    ensures var inputs := DrainInputs(locale, Store(s), popped, allocate);
      Run(s.fed + inputs) == Fold(Store(s), inputs)
  {
    hide DrainInputs, Run, Fold;
    var inputs := DrainInputs(locale, Store(s), popped, allocate);
    RunIsFold(s.fed);
    RunIsFold(s.fed + inputs);
    FoldAppend(EMPTY_STORE, s.fed, inputs);
  }

  /** drain_events. */
  method DrainStep(monitor: ProcessMonitor, window: MainWindow, arrivals: seq<seq<Event>>, allocate: Allocator,
                   treeMemory: bool, ghost s: Session)
    returns (ghost t: Session)
    requires Represents(monitor, window, s)
    modifies window, window.store, window.store.events, window.store.processes, window.queue.Repr, window.tree
    ensures Represents(monitor, window, t) && fresh(window.queue.Repr - old(window.queue.Repr))
    ensures window.store.events == old(window.store.events) || fresh(window.store.events)
    ensures window.store.processes == old(window.store.processes) || fresh(window.store.processes)
    ensures t == AllDrained(window.Locale(), s, arrivals, allocate)
  {
    hide EventQueue.Valid, EventStore.Abstract, StoreInvariants.Consistent, DrainInputs, Fold, PoppedInAll, Run,
      MainWindow.View;
    ghost var popped := PoppedInAll(s.queue, arrivals, 0);
    t := AllDrained(window.Locale(), s, arrivals, allocate);
    assert s.queue + Arrived(s, arrivals) == popped;
    DrainedStore(window.Locale(), s, popped, allocate);
    ghost var added := window.DrainEvents(arrivals, allocate, treeMemory);
    QueueInside(window.queue);
  }

  // ---- whole sessions ----

  datatype Call =
    | CallPoll(captured: Option<seq<SnapshotEntry>>, memory: nat -> bool)
    | CallPush(event: Event, allocates: bool)
    | CallDrain(arrivals: seq<seq<Event>>, allocate: Allocator, treeMemory: bool)

  /** What one call does to the session. */
  ghost predicate CallMeans(locale: Detection.Locale, clocks: nat -> Clock, s: Session, call: Call, t: Session) {
    match call
    case CallPoll(captured, memory) => Next(locale, clocks, s, Poll(captured, memory), t)
    case CallPush(event, allocates) => t == if allocates then AllPushed(s, [event]) else s
    case CallDrain(arrivals, allocate, _) => t == AllDrained(locale, s, arrivals, allocate)
  }

  /** A session as it stands after each call. */
  ghost predicate Trace(locale: Detection.Locale, clocks: nat -> Clock, trace: seq<Session>, calls: seq<Call>) {
    && |trace| == |calls| + 1 && trace[0] == OPENED
    && forall i :: 0 <= i < |calls| ==> CallMeans(locale, clocks, trace[i], calls[i], trace[i + 1])
  }

  /** The steps taken so far lead from the opened session to `s`. */
  ghost predicate Leads(locale: Detection.Locale, clocks: nat -> Clock, states: seq<Session>, steps: seq<Step>,
                        s: Session)
  {
    Behaviour(locale, clocks, states, steps) && states[|steps|] == s
  }

  lemma LeadsNext(locale: Detection.Locale, clocks: nat -> Clock, states: seq<Session>, steps: seq<Step>, s: Session,
                  step: Step, t: Session)
    requires Leads(locale, clocks, states, steps, s) && Next(locale, clocks, s, step, t)
    ensures Leads(locale, clocks, states + [t], steps + [step], t)
  {
  }

  lemma {:induction false} LeadsPushes(locale: Detection.Locale, clocks: nat -> Clock, states: seq<Session>,
                                       steps: seq<Step>, s: Session, events: seq<Event>)
    returns (states': seq<Session>, steps': seq<Step>)
    requires Leads(locale, clocks, states, steps, s)
    ensures Leads(locale, clocks, states', steps', AllPushed(s, events))
    ensures Lossless(steps) ==> Lossless(steps')
    decreases |events|
  {
    hide Leads;
    if events == [] {
      assert AllPushed(s, events) == s;
      return states, steps;
    } else {
      var (before, e) := (events[..|events| - 1], events[|events| - 1]);
      states', steps' := LeadsPushes(locale, clocks, states, steps, s, before);
      var (u, t) := (AllPushed(s, before), AllPushed(s, events));
      assert s.queue + before + [e] == s.queue + events && s.pushed + before + [e] == s.pushed + events;
      LeadsNext(locale, clocks, states', steps', u, Push(e), t);
      states', steps' := states' + [t], steps' + [Push(e)];
    }
  }

  lemma LeadsDrain(locale: Detection.Locale, clocks: nat -> Clock, states: seq<Session>, steps: seq<Step>, s: Session,
                   arrivals: seq<seq<Event>>, allocate: Allocator)
    returns (states': seq<Session>, steps': seq<Step>)
    requires Leads(locale, clocks, states, steps, s)
    ensures Leads(locale, clocks, states', steps', AllDrained(locale, s, arrivals, allocate))
    ensures Lossless(steps) ==> Lossless(steps')
  {
    hide Leads, DrainInputs, Arrived;
    states', steps' := LeadsPushes(locale, clocks, states, steps, s, Arrived(s, arrivals));
    var (u, t) := (AllPushed(s, Arrived(s, arrivals)), AllDrained(locale, s, arrivals, allocate));
    var step := Drain(|u.queue|, allocate);
    assert u.queue[..|u.queue|] == u.queue && u.queue[|u.queue|..] == [];
    LeadsNext(locale, clocks, states', steps', u, step, t);
    states', steps' := states' + [t], steps' + [step];
  }

  /** No polled event is lost for want of a node. */
  ghost predicate PollKept(call: Call) { call.CallPoll? ==> forall i :: call.memory(i) }

  lemma LeadsCall(locale: Detection.Locale, clocks: nat -> Clock, states: seq<Session>, steps: seq<Step>, s: Session,
                  call: Call, t: Session)
    returns (states': seq<Session>, steps': seq<Step>)
    requires Leads(locale, clocks, states, steps, s) && CallMeans(locale, clocks, s, call, t)
    ensures Leads(locale, clocks, states', steps', t)
    ensures PollKept(call) && Lossless(steps) ==> Lossless(steps')
  {
    hide Leads, AllDrained, Next;
    match call
    case CallPoll(captured, memory) =>
      LeadsNext(locale, clocks, states, steps, s, Poll(captured, memory), t);
      states', steps' := states + [t], steps + [Poll(captured, memory)];
    case CallPush(event, allocates) =>
      states', steps' := states, steps;
      if allocates {
        states', steps' := LeadsPushes(locale, clocks, states, steps, s, [event]);
      }
    case CallDrain(arrivals, allocate, _) =>
      states', steps' := LeadsDrain(locale, clocks, states, steps, s, arrivals, allocate);
  }

  lemma LeadsNowhere(locale: Detection.Locale, clocks: nat -> Clock)
    ensures Leads(locale, clocks, [OPENED], [], OPENED)
  {
  }

  /** Whatever the calls, their session is a behaviour of Sessions. */
  lemma {:induction false} CallsAreSteps(locale: Detection.Locale, clocks: nat -> Clock, trace: seq<Session>,
                                         calls: seq<Call>)
    returns (states: seq<Session>, steps: seq<Step>)
    requires Trace(locale, clocks, trace, calls)
    ensures Behaviour(locale, clocks, states, steps) && states[|steps|] == trace[|calls|]
    ensures (forall i :: 0 <= i < |calls| ==> PollKept(calls[i])) ==> Lossless(steps)
    decreases |calls|
  {
    hide CallMeans, Next, Lossless, PollKept;
    if calls == [] {
      states, steps := [OPENED], [];
      LeadsNowhere(locale, clocks);
      NothingLost();
    } else {
      var n := |calls| - 1;
      states, steps := CallsAreSteps(locale, clocks, trace[..n + 1], calls[..n]);
      states, steps := LeadsCall(locale, clocks, states, steps, trace[n], calls[n], trace[n + 1]);
    }
  }

  lemma NothingLost()
    ensures Lossless([])
  {
  }

  /** One call of a session. */
  method TakeCall(monitor: ProcessMonitor, window: MainWindow, call: Call, clocks: nat -> Clock, polls: nat,
                  ghost s: Session)
    returns (taken: nat, ghost t: Session)
    requires Represents(monitor, window, s) && polls == |s.taken|
    modifies monitor, window, window.store, window.store.events, window.store.processes, window.queue.Repr, window.tree
    ensures Represents(monitor, window, t) && CallMeans(window.Locale(), clocks, s, call, t) && taken == |t.taken|
    ensures fresh(window.queue.Repr - old(window.queue.Repr))
    ensures window.store.events == old(window.store.events) || fresh(window.store.events)
    ensures window.store.processes == old(window.store.processes) || fresh(window.store.processes)
  {
    hide Represents, DrainInputs, SortOf, PollEvents, Delivered;
    taken := polls;
    match call {
      case CallPoll(captured, memory) =>
        t := PollStep(monitor, window, captured, clocks, memory, clocks(polls), s);
        if captured.Some? {
          taken := polls + 1;
        }
      case CallPush(event, allocates) =>
        t := PushStep(monitor, window, event, allocates, s);
      case CallDrain(arrivals, allocate, treeMemory) =>
        t := DrainStep(monitor, window, arrivals, allocate, treeMemory, s);
    }
  }

  lemma Opens(monitor: ProcessMonitor, window: MainWindow)
    requires monitor.Valid() && monitor.previous == [] && !monitor.initialized && monitor !in window.queue.Repr
    requires window.Valid() && window.queue.initialized && window.queue.Contents() == []
    requires window.store.Abstract() == EMPTY_STORE
    ensures Represents(monitor, window, OPENED)
  {
  }

  /** A fresh poller and a fresh window, and any calls: they run exactly the session of those calls, so by
      CallsAreSteps everything proved in Sessions holds of these objects. */
  method RunSession(display: Views.Display, clocks: nat -> Clock, calls: seq<Call>)
    returns (monitor: ProcessMonitor, window: MainWindow, ghost trace: seq<Session>)
    ensures window.display == display && Trace(window.Locale(), clocks, trace, calls)
    ensures Represents(monitor, window, trace[|calls|])
  {
    hide Represents, CallMeans, MainWindow.Valid, EventStore.Abstract, EventQueue.Contents, EventQueue.Valid;
    monitor := new ProcessMonitor();
    window := new MainWindow(display);
    Opens(monitor, window);
    trace := [OPENED];
    var polls := 0;
    for index := 0 to |calls|
      invariant fresh(monitor) && fresh(window) && fresh(window.store.Repr()) && fresh(window.queue.Repr)
      invariant fresh(window.tree) && window.display == display
      invariant Trace(window.Locale(), clocks, trace, calls[..index])
      invariant Represents(monitor, window, trace[index]) && polls == |trace[index].taken|
    {
      ghost var t;
      polls, t := TakeCall(monitor, window, calls[index], clocks, polls, trace[index]);
      trace := trace + [t];
    }
    assert calls[..|calls|] == calls;
  }
}
