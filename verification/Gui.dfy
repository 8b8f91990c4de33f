/** The main window's handlers (src/gui.c), updating its state in place.  Each is proved to take a step
    of the state machine in Views; draining also feeds the store as Draining says. */
module Gui {
  import opened WideStrings
  import opened Events
  import opened StoreModel
  import opened EventOrder
  import opened Views
  import opened Draining
  import opened EventStores
  import opened EventQueues
  import Detection
  import ProcessTree
  import QueueModel
  import Sorting
  import StoreInvariants

  // ---- events arriving while the lists are on display ----

  /** A list after one more event was logged as number `n` (from 0). */
  ghost function Placed(d: Display, filter: Filter, view: ListView, l: ListState, e: Event, n: nat): ListState {
    if n >= l.floor && Shows(d, filter, view, e) then l.(rows := l.rows + [n]) else l
  }

  ghost function PlacedAll(d: Display, s: GuiState, e: Event, n: nat): GuiState {
    s.(timeline := Placed(d, s.filter, TimelineView, s.timeline, e, n),
       network := Placed(d, s.filter, NetworkView, s.network, e, n),
       alerts := Placed(d, s.filter, AlertsView, s.alerts, e, n))
  }

  /** The window after one event was accepted. */
  ghost function Arrived(d: Display, s: GuiState, e: Event): GuiState {
    var t := s.(log := s.log + [e]);
    if s.paused then t else PlacedAll(d, t, e, |s.log|)
  }

  ghost function AllArrived(d: Display, s: GuiState, es: seq<Event>): GuiState {
    if es == [] then s else Arrived(d, AllArrived(d, s, es[..|es| - 1]), es[|es| - 1])
  }

  lemma ArrivedNext(d: Display, s: GuiState, es: seq<Event>, e: Event)
    ensures AllArrived(d, s, es + [e]) == Arrived(d, AllArrived(d, s, es), e)
  {
  }

  lemma {:induction false} ArrivedAppend(d: Display, s: GuiState, a: seq<Event>, b: seq<Event>)
    ensures AllArrived(d, s, a + b) == AllArrived(d, AllArrived(d, s, a), b)
  {
    hide Arrived;
    if b == [] {
      assert a + b == a;
    } else {
      assert a + b == a + b[..|b| - 1] + [b[|b| - 1]];
      ArrivedAppend(d, s, a, b[..|b| - 1]);
      ArrivedNext(d, s, a + b[..|b| - 1], b[|b| - 1]);
    }
  }

  ghost predicate AnyProcess(es: seq<Event>) {
    exists i :: 0 <= i < |es| && IsProcessEvent(es[i])
  }

  lemma AnyProcessAppend(a: seq<Event>, b: seq<Event>)
    ensures AnyProcess(a + b) <==> AnyProcess(a) || AnyProcess(b)
  {
    hide IsProcessEvent;
    if i :| 0 <= i < |a| && IsProcessEvent(a[i]) {
      assert (a + b)[i] == a[i];
    }
    if i :| 0 <= i < |b| && IsProcessEvent(b[i]) {
      assert (a + b)[|a| + i] == b[i];
    }
  }

  lemma AnyProcessOne(e: Event)
    ensures !AnyProcess([]) && (AnyProcess([e]) <==> IsProcessEvent(e))
  {
    assert IsProcessEvent(e) <==> IsProcessEvent([e][0]);
  }

  /** A drain that refreshed the lists is a step of the state machine. */
  lemma RefreshedDrain(d: Display, s: GuiState, added: seq<Event>, u: GuiState, t: GuiState)
    requires u == AllArrived(d, s, added) && added != [] && !s.paused && Sequenced(u.log)
    requires Refreshed(d, u, s.log == [], t)
    ensures Next(d, s, Drain(added), t) && t.log == s.log + added
  {
    hide SortedView, Appended, AllArrived, Sequenced;
    AllArrivedMeans(d, s, added);
  }

  /** A drain that leaves the lists alone, because nothing was accepted or the view is paused. */
  lemma UnseenDrain(d: Display, s: GuiState, added: seq<Event>, u: GuiState)
    requires u == AllArrived(d, s, added) && Sequenced(u.log) && (added == [] || s.paused)
    ensures Next(d, s, Drain(added), if added == [] then u else u.(dirty := true)) && u.log == s.log + added
  {
    hide SortedView, Appended, AllArrived, Sequenced;
    AllArrivedMeans(d, s, added);
    if added == [] {
      NothingArrived(d, s);
    }
  }

  lemma NothingArrived(d: Display, s: GuiState)
    ensures AllArrived(d, s, []) == s
  {
  }

  /** A rebuild does not look at the dirty mark. */
  lemma CleanRebuild(d: Display, s: GuiState, t: GuiState)
    requires Rebuilt(d, s, t.(dirty := s.dirty)) && !t.dirty
    ensures Rebuilt(d, s.(dirty := false), t)
  {
    hide NewestFew, SortedView, Visible;
  }

  /** The end of drain_events: the overview is rebuilt and the lists are sorted. */
  ghost predicate Refreshed(d: Display, u: GuiState, first: bool, t: GuiState) {
    && t == u.(timeline := t.timeline, network := t.network, alerts := t.alerts, recent := t.recent,
               recentAlerts := t.recentAlerts)
    && SortedView(d, TimelineView, u.log, u.timeline, first, t.timeline)
    && SortedView(d, NetworkView, u.log, u.network, first, t.network)
    && SortedView(d, AlertsView, u.log, u.alerts, first, t.alerts)
    && OverviewExact(d, t)
  }

  lemma StoreSequenced(s: StoreState)
    requires StoreInvariants.Consistent(s)
    ensures Sequenced(s.events)
  {
  }

  lemma AppendedNext(d: Display, s: GuiState, view: ListView, log: seq<Event>, e: Event)
    requires |s.log| <= |log|
    ensures Appended(d, s, view, log + [e]) == Placed(d, s.filter, view, Appended(d, s, view, log), e, |log|)
  {
    hide Shows;
  }

  lemma AppendedNone(d: Display, s: GuiState, view: ListView)
    ensures Appended(d, s, view, s.log) == ListOf(s, view)
  {
  }

  /** Arrivals change the log and, unless the view is paused, append the rows that belong in each list. */
  lemma {:induction false} AllArrivedMeans(d: Display, s: GuiState, es: seq<Event>)
    ensures var log := s.log + es; var t := s.(log := log);
      AllArrived(d, s, es) ==
        if s.paused then t
        else t.(timeline := Appended(d, s, TimelineView, log), network := Appended(d, s, NetworkView, log),
                alerts := Appended(d, s, AlertsView, log))
  {
    hide Appended, Placed;
    if es == [] {
      assert s.log + es == s.log;
      AppendedNone(d, s, TimelineView);
      AppendedNone(d, s, NetworkView);
      AppendedNone(d, s, AlertsView);
    } else {
      var (before, e) := (es[..|es| - 1], es[|es| - 1]);
      AllArrivedMeans(d, s, before);
      assert s.log + es == s.log + before + [e];
      AppendedNext(d, s, TimelineView, s.log + before, e);
      AppendedNext(d, s, NetworkView, s.log + before, e);
      AppendedNext(d, s, AlertsView, s.log + before, e);
    }
  }

  lemma PassesMeans(d: Display, filter: Filter, e: Event)
    ensures Passes(d, filter, e) <==> MatchesSearch(d.lower, filter.search, e) && MatchesType(filter.selection, e)
  {
  }

  /** One step of the backward scan: what was seen so far, and what is left. */
  lemma NewestStep(d: Display, filter: Filter, alerts: bool, floor: nat, log: seq<Event>, n: nat, seen: seq<nat>)
    requires floor <= n < |log|
    ensures seen + Newest(d, filter, alerts, floor, log[..n + 1]) ==
      (if Passes(d, filter, log[n]) && log[n].kind.Alert? == alerts then seen + [n] else seen) +
      Newest(d, filter, alerts, floor, log[..n])
  {
    hide Passes;
    assert log[..n + 1][..n] == log[..n];
    var older := Newest(d, filter, alerts, floor, log[..n]);
    assert seen + ([n] + older) == seen + [n] + older;
  }

  /** What arrives before pop `k`. */
  function Arrivals(arrivals: seq<seq<Event>>, k: nat): seq<Event> { if k < |arrivals| then arrivals[k] else [] }

  /** A drain that will pop `all` has popped `event` as number `k`, or found the queue empty, when `waiting`
      had been pushed. */
  ghost predicate OnTrack(all: seq<Event>, waiting: seq<Event>, arrivals: seq<seq<Event>>, k: nat,
                          event: Option<Event>)
  {
    if k < |waiting| then
      event == Some(waiting[k]) && waiting <= all && all == PoppedInAll(waiting, arrivals, k + 1)
    else event == None && all == waiting && |all| == k
  }

  lemma OnTrackNext(all: seq<Event>, waiting: seq<Event>, arrivals: seq<seq<Event>>, k: nat, next: Option<Event>)
    requires k <= |waiting| && all == PoppedInAll(waiting, arrivals, k)
    requires var now := waiting + Arrivals(arrivals, k); next == if k < |now| then Some(now[k]) else None
    ensures OnTrack(all, waiting + Arrivals(arrivals, k), arrivals, k, next)
  {
    if k >= |arrivals| {
      assert waiting + [] == waiting;
    }
  }

  lemma OnTrackMeans(all: seq<Event>, waiting: seq<Event>, arrivals: seq<seq<Event>>, k: nat, event: Option<Event>)
    requires OnTrack(all, waiting, arrivals, k, event)
    ensures event.Some? ==>
      k < |waiting| && k < |all| && event.value == all[k] && all == PoppedInAll(waiting, arrivals, k + 1)
    ensures event.None? ==> all[..k] == all
  {
  }

  lemma DrainNext(locale: Detection.Locale, s: StoreState, waiting: seq<Event>, k: nat, allocate: Allocator)
    requires k < |waiting|
    ensures var before := Fold(s, DrainInputs(locale, s, waiting[..k], allocate));
      Fold(s, DrainInputs(locale, s, waiting[..k + 1], allocate)) ==
      Fold(before, EventInputs(locale, before, waiting[k], allocate, k))
  {
    hide Fold, EventInputs;
    assert waiting[..k + 1][..k] == waiting[..k];
    var inputs := DrainInputs(locale, s, waiting[..k], allocate);
    FoldAppend(s, inputs, EventInputs(locale, Fold(s, inputs), waiting[k], allocate, k));
  }

  class MainWindow {
    const display: Display
    const store: EventStore
    const queue: EventQueue
    const tree: ProcessTree.TreeView

    var timeline: ListState
    var network: ListState
    var alerts: ListState
    var overviewFloor: nat
    var recent: seq<nat>
    var recentAlerts: seq<nat>
    var renderingPaused: bool
    var renderDirty: bool
    var filterTimerActive: bool
    var filter: Filter

    ghost predicate Valid()
      reads this, store, store.events, store.processes, queue, queue.Repr
    {
      && store.Valid() && queue.Valid()
      && queue in queue.Repr && this !in queue.Repr && tree !in queue.Repr
      && store !in queue.Repr && store.events !in queue.Repr && store.processes !in queue.Repr
      && StoreInvariants.Consistent(store.Abstract())
    }

    ghost function View(): GuiState
      requires store.Valid()
      reads this, store, store.events
    {
      GuiState(store.events[..store.eventCount], timeline, network, alerts, overviewFloor, recent, recentAlerts,
               renderingPaused, renderDirty, filterTimerActive, filter)
    }

    function Locale(): Detection.Locale {
      Detection.Locale(display.collation.upper, display.lower)
    }

    constructor (display: Display)
      ensures Valid() && View() == OPENED && this.display == display
      ensures queue.initialized && queue.Contents() == [] && store.Abstract() == EMPTY_STORE
      ensures fresh(store.Repr()) && fresh(queue.Repr) && fresh(tree)
    {
      this.display := display;
      store := new EventStore();
      queue := new EventQueue(true);
      tree := new ProcessTree.TreeView();
      timeline, network, alerts := EMPTY_LIST, EMPTY_LIST, EMPTY_LIST;
      overviewFloor, recent, recentAlerts := 0, [], [];
      renderingPaused, renderDirty, filterTimerActive := false, false, false;
      filter := Filter([], 0);
      new;
      StoreInvariants.RunConsistent([]);
    }

    /** event_matches_search. */
    method EventMatchesSearch(event: Event) returns (matches: bool)
      ensures matches <==> MatchesSearch(display.lower, filter.search, event)
    {
      hide ContainsFolded, SearchedTexts;
      if filter.search == [] {
        return true;
      }
      var texts := SearchedTexts(event);
      for index := 0 to |texts|
        invariant forall i :: 0 <= i < index ==> !ContainsFolded(display.lower, texts[i], filter.search)
      {
        var found := StringContainsInsensitive(display.lower, texts[index], filter.search);
        if found {
          return true;
        }
      }
      return false;
    }

    method AddTimelineRow(event: Event, index: nat)
      modifies this`timeline
      ensures timeline ==
        if Shows(display, filter, TimelineView, event) then old(timeline).(rows := old(timeline).rows + [index])
        else old(timeline)
    {
      hide MatchesSearch;
      var found := EventMatchesSearch(event);
      if !found || !MatchesType(filter.selection, event) {
        return;
      }
      timeline := timeline.(rows := timeline.rows + [index]);
    }

    method AddNetworkRow(event: Event, index: nat)
      requires event.kind.Network?
      modifies this`network
      ensures network ==
        if Shows(display, filter, NetworkView, event) then old(network).(rows := old(network).rows + [index])
        else old(network)
    {
      hide MatchesSearch;
      var found := EventMatchesSearch(event);
      if !found {
        return;
      }
      network := network.(rows := network.rows + [index]);
    }

    method AddAlertRow(event: Event, index: nat)
      requires event.kind.Alert?
      modifies this`alerts
      ensures alerts ==
        if Shows(display, filter, AlertsView, event) then old(alerts).(rows := old(alerts).rows + [index])
        else old(alerts)
    {
      hide MatchesSearch;
      var found := EventMatchesSearch(event);
      if !found {
        return;
      }
      alerts := alerts.(rows := alerts.rows + [index]);
    }

    /** The rows one event adds, in add_accepted_event as in rebuild_event_lists. */
    method AddRows(event: Event, index: nat)
      requires store.Valid()
      modifies this`timeline, this`network, this`alerts
      ensures View() == PlacedAll(display, old(View()), event, index)
    {
      hide MatchesSearch, MatchesType;
      if index >= timeline.floor {
        AddTimelineRow(event, index);
      }
      if event.kind == Network && index >= network.floor {
        AddNetworkRow(event, index);
      } else if event.kind == Alert && index >= alerts.floor {
        AddAlertRow(event, index);
      }
    }

    /** add_accepted_event; `memory` answers the two reallocs of the store. */
    method AddAcceptedEvent(event: Event, memory: (bool, bool)) returns (accepted: bool, stored: Event)
      requires Valid()
      modifies this`timeline, this`network, this`alerts, store, store.events, store.processes
      ensures Valid()
      ensures store.events == old(store.events) || fresh(store.events)
      ensures store.processes == old(store.processes) || fresh(store.processes)
      ensures var r := AddInput(old(store.Abstract()), Input(event, memory.0, memory.1));
        store.Abstract() == r.state && accepted == r.accepted && stored == r.event
      ensures View() == if accepted then Arrived(display, old(View()), stored) else old(View())
    {
      hide AddInput, StoreModel.Add, StoreModel.Append, MergeEvent, PlacedAll, StoreInvariants.Consistent;
      var ok;
      StoreInvariants.AddConsistent(store.Abstract(), Input(event, memory.0, memory.1));
      ok, accepted, stored := store.Add(event, memory.0, memory.1);
      AddedToLog(old(store.Abstract()), Input(event, memory.0, memory.1));
      if !ok || !accepted {
        return;
      }
      var index := store.eventCount - 1;
      if !renderingPaused {
        AddRows(store.events[index], index);
      }
    }

    /** sort_view. */
    method SortList(view: ListView, l: ListState, force: bool) returns (r: ListState)
      requires store.Valid()
      ensures SortedView(display, view, store.events[..store.eventCount], l, force, r)
    {
      hide Sorting.SortOf, ItemOrder;
      if !l.sort.active && !force {
        return l;
      }
      var log := store.events[..store.eventCount];
      var sort := if l.sort.active then l.sort else DEFAULT_SORT;
      var rows := Sorting.Sort(l.rows, ItemOrder(display.collation, view, sort, log));
      return l.(rows := rows);
    }

    /** rebuild_overview_lists: scans the log backwards until both lists are full. */
    method RebuildOverviewLists()
      requires store.Valid()
      modifies this`recent, this`recentAlerts
      ensures OverviewExact(display, View())
    {
      hide Passes, Newest, MatchesSearch, MatchesType;
      ghost var log := store.events[..store.eventCount];
      recent, recentAlerts := [], [];
      ghost var seen: seq<nat>, seenAlerts: seq<nat> := [], [];
      var index := store.eventCount;
      assert log[..index] == log;
      while index > overviewFloor && !(|recent| >= RECENT_EVENT_LIMIT && |recentAlerts| >= RECENT_ALERT_LIMIT)
        invariant 0 <= index <= |log|
        invariant recent == seen[..Min(|seen|, RECENT_EVENT_LIMIT)]
        invariant recentAlerts == seenAlerts[..Min(|seenAlerts|, RECENT_ALERT_LIMIT)]
        invariant Newest(display, filter, false, overviewFloor, log) ==
          seen + Newest(display, filter, false, overviewFloor, log[..index])
        invariant Newest(display, filter, true, overviewFloor, log) ==
          seenAlerts + Newest(display, filter, true, overviewFloor, log[..index])
      {
        index := index - 1;
        NewestStep(display, filter, false, overviewFloor, log, index, seen);
        NewestStep(display, filter, true, overviewFloor, log, index, seenAlerts);
        var event := store.events[index];
        var found := EventMatchesSearch(event);
        PassesMeans(display, filter, event);
        if found && MatchesType(filter.selection, event) {
          if event.kind == Alert {
            seenAlerts := seenAlerts + [index];
            if |recentAlerts| < RECENT_ALERT_LIMIT {
              recentAlerts := recentAlerts + [index];
            }
          } else {
            seen := seen + [index];
            if |recent| < RECENT_EVENT_LIMIT {
              recent := recent + [index];
            }
          }
        }
      }
      if index <= overviewFloor {
        NothingAboveEnd(display, filter, AlertsView, overviewFloor, log[..index]);
      }
    }

    /** rebuild_event_lists. */
    method RebuildEventLists()
      requires store.Valid()
      modifies this`timeline, this`network, this`alerts
      ensures View() == old(View()).(timeline := timeline, network := network, alerts := alerts)
      ensures RebuiltList(display, old(View()), TimelineView, timeline)
      ensures RebuiltList(display, old(View()), NetworkView, network)
      ensures RebuiltList(display, old(View()), AlertsView, alerts)
    {
      hide Shows, SortedView;
      ghost var s := View();
      timeline, network, alerts := timeline.(rows := []), network.(rows := []), alerts.(rows := []);
      for index := 0 to store.eventCount
        invariant timeline ==
          s.timeline.(rows := Visible(display, s.filter, TimelineView, s.timeline.floor, s.log[..index]))
        invariant network ==
          s.network.(rows := Visible(display, s.filter, NetworkView, s.network.floor, s.log[..index]))
        invariant alerts ==
          s.alerts.(rows := Visible(display, s.filter, AlertsView, s.alerts.floor, s.log[..index]))
      {
        assert s.log[..index + 1][..index] == s.log[..index];
        AddRows(store.events[index], index);
      }
      assert s.log[..store.eventCount] == s.log;
      timeline := SortList(TimelineView, timeline, true);
      network := SortList(NetworkView, network, true);
      alerts := SortList(AlertsView, alerts, true);
    }

    /** The inner loop of drain_events: the alerts of the popped event `k` are added in turn. */
    method AddAlerts(buffer: array<Event>, count: nat, allocate: Allocator, k: nat) returns (ghost added: seq<Event>)
      requires Valid() && count <= buffer.Length && buffer != store.events
      requires forall i :: 0 <= i < count ==> buffer[i].kind.Alert?
      modifies this`timeline, this`network, this`alerts, store, store.events, store.processes
      ensures Valid()
      ensures store.events == old(store.events) || fresh(store.events)
      ensures store.processes == old(store.processes) || fresh(store.processes)
      ensures store.Abstract() == Fold(old(store.Abstract()), AlertInputs(buffer[..count], allocate, k, count))
      ensures View() == AllArrived(display, old(View()), added) && !AnyProcess(added)
    {
      hide AddInput, Arrived, StoreInvariants.Consistent, Fold, AnyProcess, View, EventStore.Abstract, EventQueue.Valid;
      ghost var (s, v, alerts) := (store.Abstract(), View(), buffer[..count]);
      added := [];
      FoldNothing(s);
      AnyProcessOne(NO_EVENT);
      for index := 0 to count
        invariant Valid() && buffer != store.events && buffer[..count] == alerts
        invariant store.events == old(store.events) || fresh(store.events)
        invariant store.processes == old(store.processes) || fresh(store.processes)
        invariant store.Abstract() == Fold(s, AlertInputs(alerts, allocate, k, index))
        invariant View() == AllArrived(display, v, added) && !AnyProcess(added)
      {
        ghost var next := InputOf(alerts[index], allocate, k, index + 1);
        FoldAppend(s, AlertInputs(alerts, allocate, k, index), [next]);
        FoldOne(store.Abstract(), next);
        AddedToLog(store.Abstract(), next);
        var accepted, stored := AddAcceptedEvent(buffer[index], allocate(k, index + 1));
        if accepted {
          ArrivedNext(display, v, added, stored);
          AnyProcessAppend(added, [stored]);
          AnyProcessOne(stored);
          added := added + [stored];
        }
      }
    }

    /** The body of the loop in drain_events: the popped event is added and, when accepted, so are
        its alerts. */
    method DrainEvent(event: Event, allocate: Allocator, k: nat, buffer: array<Event>)
      returns (accepted: bool, ghost added: seq<Event>)
      requires Valid() && buffer.Length == Detection.MAX_ALERTS_PER_EVENT
      requires buffer !in queue.Repr && buffer != store.events
      modifies this`timeline, this`network, this`alerts, store, store.events, store.processes, buffer
      ensures Valid()
      ensures store.events == old(store.events) || fresh(store.events)
      ensures store.processes == old(store.processes) || fresh(store.processes)
      ensures var s := old(store.Abstract());
        store.Abstract() == Fold(s, EventInputs(Locale(), s, event, allocate, k))
      ensures View() == AllArrived(display, old(View()), added)
      ensures (accepted <==> added != []) && (AnyProcess(added) <==> accepted && IsProcessEvent(event))
    {
      hide AddInput, Arrived, StoreInvariants.Consistent, Detection.Alerts, Fold, AnyProcess, View,
        EventStore.Abstract, EventQueue.Valid;
      ghost var (s, v) := (store.Abstract(), View());
      var stored;
      accepted, stored := AddAcceptedEvent(event, allocate(k, 0));
      FoldOne(s, InputOf(event, allocate, k, 0));
      AddedToLog(s, InputOf(event, allocate, k, 0));
      AnyProcessOne(stored);
      added := [];
      if !accepted {
        return;
      }
      ghost var alerts := Detection.Alerts(Locale(), stored);
      Detection.AlertsFit(Locale(), stored);
      var count := Detection.DetectionEvaluate(Locale(), stored, buffer);
      assert buffer[..count] == alerts;
      assert View() == AllArrived(display, v, [stored]);
      FoldAppend(s, [InputOf(event, allocate, k, 0)], AlertInputs(alerts, allocate, k, |alerts|));
      ghost var more := AddAlerts(buffer, count, allocate, k);
      ArrivedAppend(display, v, [stored], more);
      AnyProcessAppend([stored], more);
      added := [stored] + more;
    }

    /** What other threads push between two pops. */
    method Arrive(arrived: seq<Event>, ghost waiting: seq<Event>)
      requires Valid() && queue.initialized && queue.Contents() == waiting
      modifies queue.Repr
      ensures Valid() && queue.initialized && fresh(queue.Repr - old(queue.Repr))
      ensures queue.Contents() == waiting + arrived
      ensures store.Abstract() == old(store.Abstract()) && View() == old(View())
    {
      hide EventQueue.Valid, EventQueue.Contents, EventStore.Abstract, View, StoreInvariants.Consistent;
      for index := 0 to |arrived|
        invariant Valid() && queue.initialized && fresh(queue.Repr - old(queue.Repr))
        invariant queue.Contents() == waiting + arrived[..index]
      {
        var ok, post := queue.Push(arrived[index], true);
        assert arrived[..index + 1] == arrived[..index] + [arrived[index]];
      }
      assert arrived[..|arrived|] == arrived;
    }

    /** One pop, after the pushes that came in between; the queue holds what is left of `waiting` from `k` on. */
    method PopNext(arrived: seq<Event>, ghost waiting: seq<Event>, ghost k: nat) returns (event: Option<Event>)
      requires Valid() && queue.initialized && k <= |waiting| && queue.Contents() == waiting[k..]
      modifies queue.Repr
      ensures Valid() && queue.initialized && fresh(queue.Repr - old(queue.Repr))
      ensures store.Abstract() == old(store.Abstract()) && View() == old(View())
      ensures var now := waiting + arrived;
        if k < |now| then event == Some(now[k]) && queue.Contents() == now[k + 1..]
        else event == None && queue.State() == QueueModel.QueueState([], false)
    {
      hide EventQueue.Valid, EventQueue.Contents, EventStore.Abstract, View, StoreInvariants.Consistent;
      Arrive(arrived, waiting[k..]);
      assert waiting[k..] + arrived == (waiting + arrived)[k..];
      event := queue.Pop();
    }

    /** One turn of the loop: handles the popped event `k` and pops the next. */
    method DrainAndPop(arrived: seq<Event>, ghost waiting: seq<Event>, event: Event, allocate: Allocator, k: nat,
                       buffer: array<Event>)
      returns (accepted: bool, next: Option<Event>, ghost added: seq<Event>)
      requires Valid() && buffer.Length == Detection.MAX_ALERTS_PER_EVENT
      requires buffer !in queue.Repr && buffer != store.events
      requires queue.initialized && k < |waiting| && queue.Contents() == waiting[k + 1..]
      modifies this`timeline, this`network, this`alerts, store, store.events, store.processes, buffer, queue.Repr
      ensures Valid() && queue.initialized && fresh(queue.Repr - old(queue.Repr)) && buffer !in queue.Repr
      ensures store.events == old(store.events) || fresh(store.events)
      ensures store.processes == old(store.processes) || fresh(store.processes)
      ensures var s := old(store.Abstract());
        store.Abstract() == Fold(s, EventInputs(Locale(), s, event, allocate, k))
      ensures View() == AllArrived(display, old(View()), added)
      ensures (accepted <==> added != []) && (AnyProcess(added) <==> accepted && IsProcessEvent(event))
      ensures var now := waiting + arrived;
        if k + 1 < |now| then next == Some(now[k + 1]) && queue.Contents() == now[k + 2..]
        else next == None && queue.State() == QueueModel.QueueState([], false)
    {
      hide Fold, EventInputs, AllArrived, AnyProcess, StoreInvariants.Consistent, EventQueue.Valid, EventQueue.Contents,
        EventQueue.State, EventStore.Abstract, View;
      accepted, added := DrainEvent(event, allocate, k, buffer);
      next := PopNext(arrived, waiting, k + 1);
    }

    /** The state of a drain of `all` that started from `s` and `v`, after `k` events. */
    ghost predicate DrainSoFar(s: StoreState, v: GuiState, all: seq<Event>, allocate: Allocator, k: nat,
                               added: seq<Event>, anyAccepted: bool, treeChanged: bool)
      requires store.Valid() && k <= |all|
      reads this, store, store.events, store.processes
    {
      && store.Abstract() == Fold(s, DrainInputs(Locale(), s, all[..k], allocate))
      && View() == AllArrived(display, v, added)
      && (anyAccepted <==> added != []) && (treeChanged <==> AnyProcess(added))
    }

    lemma DrainBegins(s: StoreState, v: GuiState, all: seq<Event>, allocate: Allocator)
      requires store.Valid() && s == store.Abstract() && v == View()
      ensures DrainSoFar(s, v, all, allocate, 0, [], false, false)
    {
      AnyProcessOne(NO_EVENT);
    }

    /** The turn of the loop that handles event `k` of `all`. */
    method DrainTurn(arrived: seq<Event>, ghost waiting: seq<Event>, event: Event, allocate: Allocator, k: nat,
                     buffer: array<Event>, ghost s: StoreState, ghost v: GuiState, ghost all: seq<Event>,
                     ghost before: seq<Event>, anyBefore: bool, treeBefore: bool)
      returns (next: Option<Event>, anyAccepted: bool, treeChanged: bool, ghost added: seq<Event>)
      requires Valid() && buffer.Length == Detection.MAX_ALERTS_PER_EVENT
      requires buffer !in queue.Repr && buffer != store.events
      requires queue.initialized && k < |waiting| && queue.Contents() == waiting[k + 1..]
      requires k < |all| && event == all[k] && DrainSoFar(s, v, all, allocate, k, before, anyBefore, treeBefore)
      modifies this`timeline, this`network, this`alerts, store, store.events, store.processes, buffer, queue.Repr
      ensures Valid() && queue.initialized && fresh(queue.Repr - old(queue.Repr)) && buffer !in queue.Repr
      ensures store.events == old(store.events) || fresh(store.events)
      ensures store.processes == old(store.processes) || fresh(store.processes)
      ensures DrainSoFar(s, v, all, allocate, k + 1, added, anyAccepted, treeChanged)
      ensures var now := waiting + arrived;
        if k + 1 < |now| then next == Some(now[k + 1]) && queue.Contents() == now[k + 2..]
        else next == None && queue.State() == QueueModel.QueueState([], false)
    {
      hide Fold, DrainInputs, EventInputs, AllArrived, AnyProcess, StoreInvariants.Consistent, EventQueue.Valid,
        EventQueue.Contents, EventQueue.State, EventStore.Abstract, View;
      DrainNext(Locale(), s, all, k, allocate);
      var accepted;
      ghost var more;
      accepted, next, more := DrainAndPop(arrived, waiting, event, allocate, k, buffer);
      anyAccepted, treeChanged := anyBefore, treeBefore;
      if accepted {
        anyAccepted := true;
        if event.kind == ProcessStart || event.kind == ProcessStop {
          treeChanged := true;
        }
      }
      ArrivedAppend(display, v, before, more);
      AnyProcessAppend(before, more);
      added := before + more;
    }

    /** The loop of drain_events: pops until the queue is found empty, which clears `pending`.  Other threads
        push `arrivals[k]` just before pop `k`. */
    method DrainQueue(arrivals: seq<seq<Event>>, allocate: Allocator)
      returns (anyAccepted: bool, treeChanged: bool, ghost added: seq<Event>)
      requires Valid() && queue.initialized
      modifies this`timeline, this`network, this`alerts, store, store.events, store.processes, queue.Repr
      ensures Valid() && queue.initialized && queue.State() == QueueModel.QueueState([], false)
      ensures fresh(queue.Repr - old(queue.Repr))
      ensures store.events == old(store.events) || fresh(store.events)
      ensures store.processes == old(store.processes) || fresh(store.processes)
      ensures var (s, popped) := (old(store.Abstract()), PoppedInAll(old(queue.Contents()), arrivals, 0));
        store.Abstract() == Fold(s, DrainInputs(Locale(), s, popped, allocate))
      ensures View() == AllArrived(display, old(View()), added)
      ensures (anyAccepted <==> added != []) && (treeChanged <==> AnyProcess(added))
    {
      hide Fold, DrainInputs, AllArrived, AnyProcess, StoreInvariants.Consistent, EventQueue.Valid,
        EventQueue.Contents, EventQueue.State, EventStore.Abstract, View, PoppedInAll, Arrivals, OnTrack, DrainSoFar;
      ghost var (s, v, waiting) := (store.Abstract(), View(), queue.Contents());
      ghost var all := PoppedInAll(waiting, arrivals, 0);
      var buffer := new Event[Detection.MAX_ALERTS_PER_EVENT](i => NO_EVENT);
      anyAccepted, treeChanged, added := false, false, [];
      DrainBegins(s, v, all, allocate);
      var k := 0;
      assert waiting == waiting[0..];
      var event := PopFirst(Arrivals(arrivals, 0), waiting, s, v, all, allocate);
      OnTrackNext(all, waiting, arrivals, 0, event);
      waiting := waiting + Arrivals(arrivals, 0);
      OnTrackMeans(all, waiting, arrivals, 0, event);
      while event.Some?
        invariant Valid() && queue.initialized && fresh(queue.Repr - old(queue.Repr))
        invariant buffer.Length == Detection.MAX_ALERTS_PER_EVENT && fresh(buffer) && buffer != store.events
        invariant buffer !in queue.Repr
        invariant store.events == old(store.events) || fresh(store.events)
        invariant store.processes == old(store.processes) || fresh(store.processes)
        invariant OnTrack(all, waiting, arrivals, k, event) && k <= |all|
        invariant event.Some? ==> k < |waiting| && queue.Contents() == waiting[k + 1..]
        invariant event.None? ==> queue.State() == QueueModel.QueueState([], false)
        invariant DrainSoFar(s, v, all, allocate, k, added, anyAccepted, treeChanged)
        decreases |all| - k
      {
        OnTrackMeans(all, waiting, arrivals, k, event);
        event, anyAccepted, treeChanged, added := DrainTurn(Arrivals(arrivals, k + 1), waiting, event.value, allocate,
          k, buffer, s, v, all, added, anyAccepted, treeChanged);
        OnTrackNext(all, waiting, arrivals, k + 1, event);
        waiting := waiting + Arrivals(arrivals, k + 1);
        k := k + 1;
      }
      OnTrackMeans(all, waiting, arrivals, k, event);
      DrainEnds(s, v, all, allocate, k, added, anyAccepted, treeChanged);
    }

    /** The first pop. */
    method PopFirst(arrived: seq<Event>, ghost waiting: seq<Event>, ghost s: StoreState, ghost v: GuiState,
                    ghost all: seq<Event>, ghost allocate: Allocator) returns (event: Option<Event>)
      requires Valid() && queue.initialized && queue.Contents() == waiting
      requires DrainSoFar(s, v, all, allocate, 0, [], false, false)
      modifies queue.Repr
      ensures Valid() && queue.initialized && fresh(queue.Repr - old(queue.Repr))
      ensures DrainSoFar(s, v, all, allocate, 0, [], false, false)
      ensures var now := waiting + arrived;
        if 0 < |now| then event == Some(now[0]) && queue.Contents() == now[1..]
        else event == None && queue.State() == QueueModel.QueueState([], false)
    {
      hide EventQueue.Valid, EventQueue.Contents, EventQueue.State, EventStore.Abstract, View,
        StoreInvariants.Consistent;
      assert waiting == waiting[0..];
      event := PopNext(arrived, waiting, 0);
    }

    lemma DrainEnds(s: StoreState, v: GuiState, all: seq<Event>, allocate: Allocator, k: nat, added: seq<Event>,
                    anyAccepted: bool, treeChanged: bool)
      requires store.Valid() && k <= |all| && all[..k] == all
      requires DrainSoFar(s, v, all, allocate, k, added, anyAccepted, treeChanged)
      ensures store.Abstract() == Fold(s, DrainInputs(Locale(), s, all, allocate))
      ensures View() == AllArrived(display, v, added)
      ensures (anyAccepted <==> added != []) && (treeChanged <==> AnyProcess(added))
    {
    }

    /** The tree shows the store's records; `memory` says whether its rebuild got its arrays. */
    ghost predicate TreeCurrent(memory: bool)
      requires store.Valid()
      reads store, store.processes, tree
    {
      if memory then
        var parents := ProcessTree.Parents(store.processes[..store.processCount]);
        exists handles :: ProcessTree.Finished(parents, tree.nodes, handles)
      else tree.nodes == []
    }

    /** rebuild_process_tree on the store's records. */
    method RebuildTree(memory: bool)
      requires store.Valid()
      modifies tree
      ensures TreeCurrent(memory)
    {
      hide ProcessTree.Finished, ProcessTree.Parents;
      var records := store.processes[..store.processCount];
      ghost var handles := ProcessTree.RebuildProcessTree(tree, records, memory);
      assert records == store.processes[..store.processCount];
    }

    /** The end of drain_events. */
    method Refresh(first: bool, treeChanged: bool, treeMemory: bool)
      requires store.Valid()
      modifies this`timeline, this`network, this`alerts, this`recent, this`recentAlerts, tree
      ensures Refreshed(display, old(View()), first, View())
      ensures if treeChanged then TreeCurrent(treeMemory) else tree.nodes == old(tree.nodes)
    {
      hide NewestFew, SortedView, ProcessTree.Finished, ProcessTree.Parents;
      if treeChanged {
        RebuildTree(treeMemory);
      }
      RebuildOverviewLists();
      timeline := SortList(TimelineView, timeline, first);
      network := SortList(NetworkView, network, first);
      alerts := SortList(AlertsView, alerts, first);
    }

    /** drain_events, while other threads may push. */
    method DrainEvents(arrivals: seq<seq<Event>>, allocate: Allocator, treeMemory: bool)
      returns (ghost added: seq<Event>)
      requires Valid() && queue.initialized
      modifies this, store, store.events, store.processes, queue.Repr, tree
      ensures Valid() && queue.initialized && queue.State() == QueueModel.QueueState([], false)
      ensures fresh(queue.Repr - old(queue.Repr))
      ensures store.events == old(store.events) || fresh(store.events)
      ensures store.processes == old(store.processes) || fresh(store.processes)
      ensures var (s, popped) := (old(store.Abstract()), PoppedInAll(old(queue.Contents()), arrivals, 0));
        store.Abstract() == Fold(s, DrainInputs(Locale(), s, popped, allocate))
      ensures View().log == old(View()).log + added && Next(display, old(View()), Drain(added), View())
      ensures if AnyProcess(added) && !renderingPaused then TreeCurrent(treeMemory) else tree.nodes == old(tree.nodes)
    {
      hide Fold, DrainInputs, AllArrived, EventQueue.Valid, EventQueue.Contents, EventQueue.State, Refreshed, Next,
        AnyProcess, TreeCurrent, StoreInvariants.Consistent;
      ghost var v := View();
      var countBefore := store.eventCount;
      var anyAccepted, treeChanged;
      anyAccepted, treeChanged, added := DrainQueue(arrivals, allocate);
      StoreSequenced(store.Abstract());
      if !anyAccepted {
        AnyProcessOne(NO_EVENT);
        UnseenDrain(display, v, added, View());
        return;
      }
      if renderingPaused {
        UnseenDrain(display, v, added, View());
        renderDirty := true;
        return;
      }
      ghost var u := View();
      Refresh(countBefore == 0, treeChanged, treeMemory);
      RefreshedDrain(display, v, added, u, View());
    }

    /** rebuild_filtered_views. */
    method RebuildFilteredViews()
      requires store.Valid()
      modifies this
      ensures Refiltered(display, old(View()), View())
    {
      hide NewestFew, RebuiltList;
      if renderingPaused {
        renderDirty := true;
        return;
      }
      RebuildEventLists();
      RebuildOverviewLists();
    }

    /** The search box changed: its text counts at once, the lists follow when the timer fires. */
    method SearchChange(text: Wide)
      requires store.Valid()
      modifies this
      ensures Next(display, old(View()), SearchChanged(text), View())
    {
      filter := filter.(search := Truncated(text, SEARCH_LENGTH));
      filterTimerActive := true;
    }

    /** WM_TIMER of the filter timer. */
    method FilterTimerFires()
      requires store.Valid()
      modifies this
      ensures Next(display, old(View()), FilterTimer, View())
    {
      hide Refiltered;
      filterTimerActive := false;
      RebuildFilteredViews();
    }

    /** CBN_SELCHANGE of the event filter. */
    method SelectFilter(selection: int)
      requires store.Valid()
      modifies this
      ensures Next(display, old(View()), FilterSelected(selection), View())
    {
      hide Refiltered;
      filter := filter.(selection := selection);
      RebuildFilteredViews();
    }

    /** What resuming a dirty view does. */
    method RenderBuffered(treeMemory: bool)
      requires store.Valid()
      modifies this, tree
      ensures Rebuilt(display, old(View()), View().(dirty := old(renderDirty))) && !renderDirty
      ensures store.Valid() && TreeCurrent(treeMemory)
    {
      hide NewestFew, SortedView, Visible, TreeCurrent;
      RebuildEventLists();
      RebuildTree(treeMemory);
      RebuildOverviewLists();
      renderDirty := false;
    }

    /** toggle_pause: resuming renders what arrived meanwhile. */
    method TogglePause(treeMemory: bool)
      requires store.Valid()
      modifies this, tree
      ensures store.Valid() && Next(display, old(View()), PauseClicked, View())
      ensures if old(renderingPaused && renderDirty) then TreeCurrent(treeMemory) else tree.nodes == old(tree.nodes)
    {
      hide Rebuilt, TreeCurrent;
      renderingPaused := !renderingPaused;
      if !renderingPaused && renderDirty {
        ghost var s := View();
        RenderBuffered(treeMemory);
        CleanRebuild(display, s, View());
      }
    }

    /** clear_current_view: raises the floor of the view to the end of the log. */
    method ClearCurrentView(tab: Tab)
      requires store.Valid()
      modifies this
      ensures Next(display, old(View()), ClearClicked(tab), View())
    {
      match tab
      case ProcessesTab =>
      case OverviewTab => overviewFloor, recent, recentAlerts := store.eventCount, [], [];
      case ListTab(TimelineView) => timeline := timeline.(floor := store.eventCount, rows := []);
      case ListTab(NetworkView) => network := network.(floor := store.eventCount, rows := []);
      case ListTab(AlertsView) => alerts := alerts.(floor := store.eventCount, rows := []);
    }

    /** handle_column_click. */
    method HandleColumnClick(view: ListView, column: int)
      requires store.Valid()
      modifies this
      ensures Next(display, old(View()), ColumnClicked(view, column), View())
    {
      hide SortedView;
      var l := match view case TimelineView => timeline case NetworkView => network case AlertsView => alerts;
      var sort := l.sort;
      if sort.active && sort.column == column {
        sort := sort.(ascending := !sort.ascending);
      } else {
        sort := SortState(column, true, true);
      }
      l := SortList(view, l.(sort := sort), false);
      match view
      case TimelineView => timeline := l;
      case NetworkView => network := l;
      case AlertsView => alerts := l;
    }
  }

  /** One call extends the log by the accepted event or leaves it. */
  lemma AddedToLog(s: StoreState, i: Input)
    ensures var r := AddInput(s, i);
      r.state.events == (if r.accepted then s.events + [r.event] else s.events) && (r.accepted ==> r.ok)
      && r.event.kind == i.event.kind
      && AddInput(s, i) == StoreModel.Add(s, i.event, i.recordMemory, i.eventMemory)
  {
    hide FindProcess, ReserveRecord, ReserveEvent, NewRecord, Updated;
  }
}
