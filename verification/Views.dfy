/** What the lists of the window show (src/gui.c), as a state machine: the log, the rows of each list
    as indices into it, and the pause, filter, clear and sort state. */
module Views {
  import opened WideStrings
  import opened Formatting
  import opened Events
  import opened Sorting
  import opened EventOrder

  const SEARCH_LENGTH := 256
  const RECENT_EVENT_LIMIT := 8
  const RECENT_ALERT_LIMIT := 5

  // ---- filters ----

  /** The text of the search box and the selection of the event filter (-1 for none). */
  datatype Filter = Filter(search: Wide, selection: int)

  function NumericFields(e: Event): Wide {
    Truncated(Decimal(e.process.pid) + W(" ") + Decimal(e.parent.pid) + W(" ") +
              Decimal(e.localPort) + W(" ") + Decimal(e.remotePort), 96)
  }

  /** The texts a search looks through. */
  function SearchedTexts(e: Event): seq<Wide> {
    [e.processName, e.parentName, e.executablePath, e.details, e.remoteAddress, e.localAddress, e.protocol,
     e.networkState, e.ruleName, EventTypeName(e.kind), EventCategoryName(e.kind), NumericFields(e)]
  }

  ghost predicate MatchesSearch(fold: Unit -> Unit, search: Wide, e: Event) {
    search == [] || exists i :: 0 <= i < |SearchedTexts(e)| && ContainsFolded(fold, SearchedTexts(e)[i], search)
  }

  predicate MatchesType(selection: int, e: Event) {
    if selection == 1 then IsProcessEvent(e)
    else if selection == 2 then e.kind.Network?
    else if selection == 3 then e.kind.Alert?
    else true
  }

  /** Everything the display depends on besides the state: case folding and comparison. */
  datatype Display = Display(lower: Unit -> Unit, collation: Collation)

  /** The event belongs in this list; only the timeline obeys the event filter. */
  ghost predicate Shows(d: Display, filter: Filter, view: ListView, e: Event) {
    && MatchesSearch(d.lower, filter.search, e)
    && match view
       case TimelineView => MatchesType(filter.selection, e)
       case NetworkView => e.kind.Network?
       case AlertsView => e.kind.Alert?
  }

  /** The overview obeys both filters. */
  ghost predicate Passes(d: Display, filter: Filter, e: Event) {
    MatchesSearch(d.lower, filter.search, e) && MatchesType(filter.selection, e)
  }

  // ---- what a list ought to show ----

  /** The indices from `from` on, at or above the floor, of the events the list shows. */
  ghost function VisibleFrom(d: Display, filter: Filter, view: ListView, floor: nat, log: seq<Event>, from: nat)
    : seq<nat>
    decreases |log|
  {
    if |log| <= from then []
    else
      var n := |log| - 1;
      var earlier := VisibleFrom(d, filter, view, floor, log[..n], from);
      if n >= floor && Shows(d, filter, view, log[n]) then earlier + [n] else earlier
  }

  ghost function Visible(d: Display, filter: Filter, view: ListView, floor: nat, log: seq<Event>): seq<nat> {
    VisibleFrom(d, filter, view, floor, log, 0)
  }

  lemma {:induction false} VisibleExtends(d: Display, filter: Filter, view: ListView, floor: nat, log: seq<Event>,
                                          more: seq<Event>)
    ensures Visible(d, filter, view, floor, log + more) ==
      Visible(d, filter, view, floor, log) + VisibleFrom(d, filter, view, floor, log + more, |log|)
  {
    hide Shows;
    if more == [] {
      assert log + more == log;
    } else {
      var n := |more| - 1;
      assert (log + more)[..|log + more| - 1] == log + more[..n];
      VisibleExtends(d, filter, view, floor, log, more[..n]);
    }
  }

  lemma VisibleLast(d: Display, filter: Filter, view: ListView, floor: nat, log: seq<Event>)
    ensures var v := Visible(d, filter, view, floor, log); var n := |log| - 1;
      if log == [] then v == []
      else if n >= floor && Shows(d, filter, view, log[n]) then v == Visible(d, filter, view, floor, log[..n]) + [n]
      else v == Visible(d, filter, view, floor, log[..n])
  {
    hide Shows;
  }

  /** The visible rows are exactly the shown indices at or above the floor, ascending, each once. */
  lemma {:induction false} VisibleIsExact(d: Display, filter: Filter, view: ListView, floor: nat, log: seq<Event>)
    ensures var v := Visible(d, filter, view, floor, log);
      && (forall i :: multiset(v)[i] == if floor <= i < |log| && Shows(d, filter, view, log[i]) then 1 else 0)
      && (forall i, j :: 0 <= i < j < |v| ==> v[i] < v[j])
      && (forall i :: 0 <= i < |v| ==> v[i] < |log|)
  {
    hide Shows, Visible;
    VisibleLast(d, filter, view, floor, log);
    if log == [] {
    } else {
      var n := |log| - 1;
      var (v, earlier) := (Visible(d, filter, view, floor, log), Visible(d, filter, view, floor, log[..n]));
      VisibleIsExact(d, filter, view, floor, log[..n]);
      forall i ensures multiset(v)[i] == if floor <= i < |log| && Shows(d, filter, view, log[i]) then 1 else 0 {
        assert multiset(earlier + [n]) == multiset(earlier) + multiset{n};
        assert 0 <= i < n ==> log[..n][i] == log[i];
      }
    }
  }

  /** The passing indices of one kind - alerts or the rest - newest first. */
  ghost function Newest(d: Display, filter: Filter, alerts: bool, floor: nat, log: seq<Event>): seq<nat> {
    if log == [] then []
    else
      var n := |log| - 1;
      var older := Newest(d, filter, alerts, floor, log[..n]);
      if n >= floor && Passes(d, filter, log[n]) && log[n].kind.Alert? == alerts then [n] + older else older
  }

  ghost function NewestFew(d: Display, filter: Filter, alerts: bool, floor: nat, log: seq<Event>): seq<nat> {
    var all := Newest(d, filter, alerts, floor, log);
    all[..Min(|all|, if alerts then RECENT_ALERT_LIMIT else RECENT_EVENT_LIMIT)]
  }

  /** An index the overview may list among its alerts, or among the rest. */
  ghost predicate Candidate(d: Display, filter: Filter, alerts: bool, floor: nat, log: seq<Event>, i: int) {
    floor <= i < |log| && Passes(d, filter, log[i]) && log[i].kind.Alert? == alerts
  }

  lemma NewestLast(d: Display, filter: Filter, alerts: bool, floor: nat, log: seq<Event>)
    ensures var v := Newest(d, filter, alerts, floor, log); var n := |log| - 1;
      if log == [] then v == []
      else
        var older := Newest(d, filter, alerts, floor, log[..n]);
        v == if Candidate(d, filter, alerts, floor, log, n) then [n] + older else older
  {
    hide Passes;
  }

  /** All candidates, each once, newest first. */
  lemma {:induction false} NewestIsExact(d: Display, filter: Filter, alerts: bool, floor: nat, log: seq<Event>)
    ensures var v := Newest(d, filter, alerts, floor, log);
      && (forall i :: i in v <==> Candidate(d, filter, alerts, floor, log, i))
      && (forall i, j :: 0 <= i < j < |v| ==> v[i] > v[j])
  {
    hide Passes, Newest;
    NewestLast(d, filter, alerts, floor, log);
    if log == [] {
    } else {
      var n := |log| - 1;
      var older := Newest(d, filter, alerts, floor, log[..n]);
      NewestIsExact(d, filter, alerts, floor, log[..n]);
      assert forall i :: 0 <= i < n ==> log[..n][i] == log[i];
      forall i | 0 <= i < |older| ensures older[i] < n {
        assert older[i] in older;
        assert Candidate(d, filter, alerts, floor, log[..n], older[i]);
      }
    }
  }

  /** The overview lists are candidates, newest first, at most 8 (or 5 alerts); a candidate is missing
      only from a full list, and then it is older than everything listed. */
  lemma NewestFewIsExact(d: Display, filter: Filter, alerts: bool, floor: nat, log: seq<Event>)
    ensures var few := NewestFew(d, filter, alerts, floor, log); var limit := if alerts then 5 else 8;
      && |few| <= limit
      && (forall i, j :: 0 <= i < j < |few| ==> few[i] > few[j])
      && (forall i :: i in few ==> Candidate(d, filter, alerts, floor, log, i))
      && (forall i :: Candidate(d, filter, alerts, floor, log, i) && i !in few ==>
            |few| == limit && forall k :: 0 <= k < |few| ==> i < few[k])
  {
    hide Candidate, Newest;
    NewestIsExact(d, filter, alerts, floor, log);
    var (all, few) := (Newest(d, filter, alerts, floor, log), NewestFew(d, filter, alerts, floor, log));
    forall i | Candidate(d, filter, alerts, floor, log, i) && i !in few
      ensures |few| == (if alerts then 5 else 8) && forall k :: 0 <= k < |few| ==> i < few[k]
    {
      assert i in all;
      var at :| 0 <= at < |all| && all[at] == i;
      assert forall k :: 0 <= k < |few| ==> few[k] == all[k] && k != at;
    }
  }

  // ---- the state ----

  const DEFAULT_SORT := SortState(TIME_COLUMN, true, false)

  datatype ListState = ListState(rows: seq<nat>, floor: nat, sort: SortState)

  datatype GuiState = GuiState(
    log: seq<Event>,
    timeline: ListState,
    network: ListState,
    alerts: ListState,
    overviewFloor: nat,
    recent: seq<nat>,
    recentAlerts: seq<nat>,
    paused: bool,
    dirty: bool,
    timerActive: bool,
    filter: Filter)

  const EMPTY_LIST := ListState([], 0, DEFAULT_SORT)
  const OPENED := GuiState([], EMPTY_LIST, EMPTY_LIST, EMPTY_LIST, 0, [], [], false, false, false, Filter([], 0))

  function ListOf(s: GuiState, view: ListView): ListState {
    match view
    case TimelineView => s.timeline
    case NetworkView => s.network
    case AlertsView => s.alerts
  }

  datatype Tab = OverviewTab | ProcessesTab | ListTab(view: ListView)

  /** What can happen to the window; Drain carries the events the store accepted. */
  datatype Command =
    | Drain(accepted: seq<Event>)
    | SearchChanged(text: Wide)
    | FilterTimer
    | FilterSelected(selection: int)
    | PauseClicked
    | ClearClicked(tab: Tab)
    | ColumnClicked(view: ListView, column: int)

  // ---- one step ----

  /** sort_view: the rows sorted as the list says, or by time when forced, or left alone. */
  ghost predicate SortedView(d: Display, view: ListView, log: seq<Event>, l: ListState, force: bool, r: ListState) {
    && r.floor == l.floor && r.sort == l.sort
    && if l.sort.active then SortOf(ItemOrder(d.collation, view, l.sort, log), l.rows, r.rows)
       else if force then SortOf(ItemOrder(d.collation, view, DEFAULT_SORT, log), l.rows, r.rows)
       else r.rows == l.rows
  }

  /** rebuild_event_lists for one list. */
  ghost predicate RebuiltList(d: Display, s: GuiState, view: ListView, r: ListState) {
    var l := ListOf(s, view);
    SortedView(d, view, s.log, l.(rows := Visible(d, s.filter, view, l.floor, s.log)), true, r)
  }

  function Toggled(sort: SortState, column: int): SortState {
    if sort.active && sort.column == column then sort.(ascending := !sort.ascending)
    else SortState(column, true, true)
  }

  /** The lists and the overview after a full rebuild; nothing else changes. */
  ghost predicate Rebuilt(d: Display, s: GuiState, t: GuiState) {
    && t == s.(timeline := t.timeline, network := t.network, alerts := t.alerts, recent := t.recent,
               recentAlerts := t.recentAlerts)
    && RebuiltList(d, s, TimelineView, t.timeline)
    && RebuiltList(d, s, NetworkView, t.network)
    && RebuiltList(d, s, AlertsView, t.alerts)
    && OverviewExact(d, t)
  }

  ghost predicate OverviewExact(d: Display, s: GuiState) {
    && s.recent == NewestFew(d, s.filter, false, s.overviewFloor, s.log)
    && s.recentAlerts == NewestFew(d, s.filter, true, s.overviewFloor, s.log)
  }

  /** The rows add_accepted_event appends to a list while the events of one drain arrive. */
  ghost function Appended(d: Display, s: GuiState, view: ListView, log: seq<Event>): ListState {
    var l := ListOf(s, view);
    l.(rows := l.rows + VisibleFrom(d, s.filter, view, l.floor, log, |s.log|))
  }

  /** drain_events, after the store accepted these events. */
  ghost predicate Drained(d: Display, s: GuiState, accepted: seq<Event>, t: GuiState) {
    var log := s.log + accepted;
    if accepted == [] then t == s
    else if s.paused then t == s.(log := log, dirty := true)
    else
      var first := s.log == [];
      && t == s.(log := log, timeline := t.timeline, network := t.network, alerts := t.alerts,
                 recent := t.recent, recentAlerts := t.recentAlerts)
      && SortedView(d, TimelineView, log, Appended(d, s, TimelineView, log), first, t.timeline)
      && SortedView(d, NetworkView, log, Appended(d, s, NetworkView, log), first, t.network)
      && SortedView(d, AlertsView, log, Appended(d, s, AlertsView, log), first, t.alerts)
      && OverviewExact(d, t)
  }

  /** rebuild_filtered_views. */
  ghost predicate Refiltered(d: Display, s: GuiState, t: GuiState) {
    if s.paused then t == s.(dirty := true) else Rebuilt(d, s, t)
  }

  function Cleared(s: GuiState, tab: Tab): GuiState {
    match tab
    case ProcessesTab => s
    case OverviewTab => s.(overviewFloor := |s.log|, recent := [], recentAlerts := [])
    case ListTab(TimelineView) => s.(timeline := s.timeline.(rows := [], floor := |s.log|))
    case ListTab(NetworkView) => s.(network := s.network.(rows := [], floor := |s.log|))
    case ListTab(AlertsView) => s.(alerts := s.alerts.(rows := [], floor := |s.log|))
  }

  ghost predicate ColumnSorted(d: Display, s: GuiState, view: ListView, column: int, t: GuiState) {
    var l := ListOf(s, view);
    var r := ListOf(t, view);
    && SortedView(d, view, s.log, l.(sort := Toggled(l.sort, column)), false, r)
    && t == (match view
             case TimelineView => s.(timeline := r)
             case NetworkView => s.(network := r)
             case AlertsView => s.(alerts := r))
  }

  ghost predicate Next(d: Display, s: GuiState, command: Command, t: GuiState) {
    match command
    case Drain(accepted) => Sequenced(t.log) && Drained(d, s, accepted, t)
    case SearchChanged(text) =>
      t == s.(filter := s.filter.(search := Truncated(text, SEARCH_LENGTH)), timerActive := true)
    case FilterTimer => Refiltered(d, s.(timerActive := false), t)
    case FilterSelected(selection) => Refiltered(d, s.(filter := s.filter.(selection := selection)), t)
    case PauseClicked =>
      if s.paused && s.dirty then Rebuilt(d, s.(paused := false, dirty := false), t)
      else t == s.(paused := !s.paused)
    case ClearClicked(tab) => t == Cleared(s, tab)
    case ColumnClicked(view, column) => ColumnSorted(d, s, view, column, t)
  }

  // ---- the invariant ----

  ghost predicate InOrder(d: Display, view: ListView, l: ListState, log: seq<Event>) {
    l.sort.active && Sortable(d.collation, l.sort, log) ==> Sorted(ItemOrder(d.collation, view, l.sort, log), l.rows)
  }

  /** The list shows what it ought to, sorted if a sort column is active. */
  ghost predicate ListExact(d: Display, s: GuiState, view: ListView) {
    var l := ListOf(s, view);
    && multiset(l.rows) == multiset(Visible(d, s.filter, view, l.floor, s.log))
    && InOrder(d, view, l, s.log)
  }

  ghost predicate AtRest(s: GuiState) { !s.dirty && !s.timerActive }

  ghost predicate Consistent(d: Display, s: GuiState) {
    && Sequenced(s.log)
    && (s.dirty ==> s.paused)
    && (AtRest(s) ==>
      && ListExact(d, s, TimelineView) && ListExact(d, s, NetworkView) && ListExact(d, s, AlertsView)
      && OverviewExact(d, s))
  }

  lemma SortedInOrder(d: Display, view: ListView, log: seq<Event>, l: ListState, force: bool, r: ListState)
    requires SortedView(d, view, log, l, force, r) && RowsOf(log, l.rows)
    ensures multiset(r.rows) == multiset(l.rows) && InOrder(d, view, r, log)
  {
    hide ItemOrder, Sortable, Preorders, Sorted, Strict;
    if l.sort.active && Sortable(d.collation, l.sort, log) {
      RowsOrdered(d.collation, view, l.sort, log, l.rows);
    }
  }

  lemma RebuiltExact(d: Display, s: GuiState, view: ListView, t: GuiState)
    requires RebuiltList(d, s, view, ListOf(t, view)) && t.log == s.log && t.filter == s.filter
    ensures ListExact(d, t, view)
  {
    hide InOrder, SortedView, Visible;
    var l := ListOf(s, view);
    VisibleIsExact(d, s.filter, view, l.floor, s.log);
    SortedInOrder(d, view, s.log, l.(rows := Visible(d, s.filter, view, l.floor, s.log)), true, ListOf(t, view));
    SortedViewKeeps(d, view, s.log, l.(rows := Visible(d, s.filter, view, l.floor, s.log)), true, ListOf(t, view));
  }

  lemma SortedViewKeeps(d: Display, view: ListView, log: seq<Event>, l: ListState, force: bool, r: ListState)
    requires SortedView(d, view, log, l, force, r)
    ensures r.floor == l.floor && r.sort == l.sort
  {
  }

  lemma RebuiltConsistent(d: Display, s: GuiState, t: GuiState)
    requires Sequenced(s.log) && !s.dirty && Rebuilt(d, s, t)
    ensures Consistent(d, t)
  {
    hide ListExact, RebuiltList, OverviewExact;
    RebuiltExact(d, s, TimelineView, t);
    RebuiltExact(d, s, NetworkView, t);
    RebuiltExact(d, s, AlertsView, t);
  }

  lemma DrainedList(d: Display, s: GuiState, view: ListView, accepted: seq<Event>, t: GuiState)
    requires ListExact(d, s, view) && t.log == s.log + accepted && t.filter == s.filter
    requires SortedView(d, view, t.log, Appended(d, s, view, t.log), s.log == [], ListOf(t, view))
    ensures ListExact(d, t, view)
  {
    hide InOrder, SortedView, Visible, VisibleFrom, Shows;
    var l := ListOf(s, view);
    var grown := Appended(d, s, view, t.log);
    VisibleExtends(d, s.filter, view, l.floor, s.log, accepted);
    VisibleIsExact(d, s.filter, view, l.floor, t.log);
    assert multiset(grown.rows) == multiset(Visible(d, s.filter, view, l.floor, t.log));
    SameMembers(grown.rows, Visible(d, s.filter, view, l.floor, t.log));
    MembersRows(t.log, Visible(d, s.filter, view, l.floor, t.log), grown.rows);
    SortedInOrder(d, view, t.log, grown, s.log == [], ListOf(t, view));
    SortedViewKeeps(d, view, t.log, grown, s.log == [], ListOf(t, view));
  }

  lemma DrainConsistent(d: Display, s: GuiState, accepted: seq<Event>, t: GuiState)
    requires Consistent(d, s) && Sequenced(t.log) && Drained(d, s, accepted, t)
    ensures Consistent(d, t)
  {
    hide ListExact, SortedView, OverviewExact, Appended, Sequenced;
    if accepted != [] && !s.paused && AtRest(s) {
      DrainedList(d, s, TimelineView, accepted, t);
      DrainedList(d, s, NetworkView, accepted, t);
      DrainedList(d, s, AlertsView, accepted, t);
    }
  }

  lemma {:induction false} NothingAboveEnd(d: Display, filter: Filter, view: ListView, floor: nat, log: seq<Event>)
    requires floor >= |log|
    ensures Visible(d, filter, view, floor, log) == []
    ensures forall alerts :: Newest(d, filter, alerts, floor, log) == []
  {
    hide Shows, Passes;
    if log == [] {
    } else {
      NothingAboveEnd(d, filter, view, floor, log[..|log| - 1]);
    }
  }

  lemma ClearedList(d: Display, filter: Filter, view: ListView, l: ListState, log: seq<Event>)
    requires l.rows == [] && l.floor >= |log|
    ensures multiset(l.rows) == multiset(Visible(d, filter, view, l.floor, log)) && InOrder(d, view, l, log)
    ensures forall alerts :: NewestFew(d, filter, alerts, l.floor, log) == []
  {
    hide Visible, Newest, Sortable;
    NothingAboveEnd(d, filter, view, l.floor, log);
  }

  lemma ClearConsistent(d: Display, s: GuiState, tab: Tab)
    requires Consistent(d, s)
    ensures Consistent(d, Cleared(s, tab))
  {
    hide Visible, NewestFew, InOrder, Sequenced;
    ClearedList(d, s.filter, TimelineView, s.timeline.(rows := [], floor := |s.log|), s.log);
    ClearedList(d, s.filter, NetworkView, s.network.(rows := [], floor := |s.log|), s.log);
    ClearedList(d, s.filter, AlertsView, s.alerts.(rows := [], floor := |s.log|), s.log);
  }

  lemma ColumnExact(d: Display, s: GuiState, view: ListView, column: int, t: GuiState)
    requires ListExact(d, s, view) && ColumnSorted(d, s, view, column, t)
    ensures ListExact(d, t, view)
  {
    hide InOrder, SortedView, Visible;
    var l := ListOf(s, view);
    var v := Visible(d, s.filter, view, l.floor, s.log);
    VisibleIsExact(d, s.filter, view, l.floor, s.log);
    SameMembers(v, l.rows);
    MembersRows(s.log, v, l.rows);
    SortedInOrder(d, view, s.log, l.(sort := Toggled(l.sort, column)), false, ListOf(t, view));
    SortedViewKeeps(d, view, s.log, l.(sort := Toggled(l.sort, column)), false, ListOf(t, view));
  }

  lemma ColumnConsistent(d: Display, s: GuiState, view: ListView, column: int, t: GuiState)
    requires Consistent(d, s) && ColumnSorted(d, s, view, column, t)
    ensures Consistent(d, t)
  {
    hide SortedView, InOrder, Visible, NewestFew;
    if AtRest(s) {
      ColumnExact(d, s, view, column, t);
    }
  }

  lemma PauseConsistent(d: Display, s: GuiState)
    requires Consistent(d, s) && !(s.paused && s.dirty)
    ensures Consistent(d, s.(paused := !s.paused))
  {
    hide InOrder, Visible, NewestFew, Sequenced;
  }

  lemma NextConsistent(d: Display, s: GuiState, command: Command, t: GuiState)
    requires Consistent(d, s) && Next(d, s, command, t)
    ensures Consistent(d, t)
  {
    hide Drained, Rebuilt, ColumnSorted, Cleared, ListExact, OverviewExact, Sequenced, Truncated;
    match command
    case Drain(accepted) => DrainConsistent(d, s, accepted, t);
    case SearchChanged(text) =>
    case FilterTimer =>
      if !s.paused {
        RebuiltConsistent(d, s.(timerActive := false), t);
      }
    case FilterSelected(selection) =>
      if !s.paused {
        RebuiltConsistent(d, s.(filter := s.filter.(selection := selection)), t);
      }
    case PauseClicked =>
      if s.paused && s.dirty {
        RebuiltConsistent(d, s.(paused := false, dirty := false), t);
      } else {
        PauseConsistent(d, s);
      }
    case ClearClicked(tab) => ClearConsistent(d, s, tab);
    case ColumnClicked(view, column) => ColumnConsistent(d, s, view, column, t);
  }

  /** A run of the window: its successive states and the commands between them. */
  ghost predicate Behaviour(d: Display, states: seq<GuiState>, commands: seq<Command>) {
    && |states| == |commands| + 1 && states[0] == OPENED
    && forall i :: 0 <= i < |commands| ==> Next(d, states[i], commands[i], states[i + 1])
  }

  lemma {:induction false} BehaviourConsistent(d: Display, states: seq<GuiState>, commands: seq<Command>, n: nat)
    requires Behaviour(d, states, commands) && n < |states|
    ensures Consistent(d, states[n])
  {
    hide Next, Consistent;
    if n == 0 {
      OpenedConsistent(d);
    } else {
      BehaviourConsistent(d, states, commands, n - 1);
      NextConsistent(d, states[n - 1], commands[n - 1], states[n]);
    }
  }

  lemma OpenedConsistent(d: Display)
    ensures Consistent(d, OPENED)
  {
    hide Sortable, Shows, Passes;
  }

  /** In every reachable state at rest each list shows exactly the events at or above its floor that
      pass its filters, each once, and in the order of its sort column if one is active. */
  lemma ListsAreExact(d: Display, states: seq<GuiState>, commands: seq<Command>, n: nat, view: ListView)
    requires Behaviour(d, states, commands) && n < |states| && AtRest(states[n])
    ensures var s := states[n]; var l := ListOf(s, view);
      && (forall i :: multiset(l.rows)[i] ==
            if l.floor <= i < |s.log| && Shows(d, s.filter, view, s.log[i]) then 1 else 0)
      && (l.sort.active && Sortable(d.collation, l.sort, s.log) ==>
            Sorted(ItemOrder(d.collation, view, l.sort, s.log), l.rows))
  {
    hide Behaviour, Shows, Visible, Sortable, Sorted, OverviewExact;
    BehaviourConsistent(d, states, commands, n);
    var s := states[n];
    VisibleIsExact(d, s.filter, view, ListOf(s, view).floor, s.log);
  }

  /** And the overview shows the newest events and alerts that pass its filters above its floor. */
  lemma OverviewIsExact(d: Display, states: seq<GuiState>, commands: seq<Command>, n: nat)
    requires Behaviour(d, states, commands) && n < |states| && AtRest(states[n])
    ensures var s := states[n];
      && s.recent == NewestFew(d, s.filter, false, s.overviewFloor, s.log)
      && s.recentAlerts == NewestFew(d, s.filter, true, s.overviewFloor, s.log)
  {
    hide Behaviour, NewestFew, ListExact;
    BehaviourConsistent(d, states, commands, n);
  }

  lemma SequencedIdentified(log: seq<Event>)
    requires Sequenced(log)
    ensures Identified(log)
  {
  }

  /** So a full rebuild of a list with an active sort column changes nothing: the incremental rows
      are the rebuilt ones, in the same order. */
  lemma RebuildChangesNothing(d: Display, s: GuiState, view: ListView, r: ListState)
    requires Consistent(d, s) && AtRest(s) && ListOf(s, view).sort.active
    requires Sortable(d.collation, ListOf(s, view).sort, s.log) && RebuiltList(d, s, view, r)
    ensures r == ListOf(s, view)
  {
    hide Sortable, ItemOrder, Visible, OverviewExact, Sorted, Preorders, Sequenced;
    var l := ListOf(s, view);
    var v := Visible(d, s.filter, view, l.floor, s.log);
    VisibleIsExact(d, s.filter, view, l.floor, s.log);
    SortedRowsUnique(d.collation, view, l.sort, s.log, v, l.rows, r.rows, l.rows);
  }

  /** The event at row `i` may stand above the one at row `j` in a list sorted by time: its time is
      earlier, or the times do not tell them apart and it was logged earlier. */
  predicate TimeAllows(c: Collation, log: seq<Event>, i: nat, j: nat)
    requires i < |log| && j < |log|
  {
    match (c.convert(log[i].timestamp), c.convert(log[j].timestamp))
    case (Some(x), Some(y)) => x < y || (x == y && i < j)
    case _ => i < j
  }

  lemma TimeAllowsMeans(c: Collation, view: ListView, log: seq<Event>, i: nat, j: nat)
    requires Sequenced(log) && i < |log| && j < |log| && i != j
    ensures CompareItems(c, view, DEFAULT_SORT, log, i, j) <= 0 <==> TimeAllows(c, log, i, j)
  {
  }

  /** Each pair of rows stands as the times of the logged events allow. */
  ghost predicate RowsAllowed(c: Collation, log: seq<Event>, rows: seq<nat>)
    requires RowsOf(log, rows)
  {
    forall i, j :: 0 <= i < j < |rows| ==> TimeAllows(c, log, rows[i], rows[j])
  }

  lemma AllowedIsSorted(c: Collation, view: ListView, log: seq<Event>, rows: seq<nat>)
    requires Sequenced(log) && RowsOf(log, rows) && forall i, j :: 0 <= i < j < |rows| ==> rows[i] != rows[j]
    ensures Sorted(ItemOrder(c, view, DEFAULT_SORT, log), rows) <==> RowsAllowed(c, log, rows)
  {
    hide CompareItems, TimeAllows, Sequenced;
    forall i, j | 0 <= i < j < |rows|
      ensures ItemOrder(c, view, DEFAULT_SORT, log)(rows[i], rows[j]) <= 0 <==> TimeAllows(c, log, rows[i], rows[j])
    {
      TimeAllowsMeans(c, view, log, rows[i], rows[j]);
    }
  }

  lemma RowsDiffer(a: seq<nat>, b: seq<nat>)
    requires multiset(a) == multiset(b) && forall i, j :: 0 <= i < j < |a| ==> a[i] < a[j]
    ensures forall i, j :: 0 <= i < j < |b| ==> b[i] != b[j]
  {
    forall i, j | 0 <= i < j < |b| ensures b[i] != b[j] {
      if b[i] == b[j] {
        TwiceIn(b, i, j);
        OnceIn(a, b[i]);
      }
    }
  }

  lemma TwiceIn(b: seq<nat>, i: nat, j: nat)
    requires i < j < |b| && b[i] == b[j]
    ensures multiset(b)[b[i]] >= 2
  {
    assert b == b[..j] + [b[j]] + b[j + 1..];
    assert b[..j][i] == b[i] && b[i] in multiset(b[..j]);
  }

  lemma {:induction false} OnceIn(a: seq<nat>, x: nat)
    requires forall i, j :: 0 <= i < j < |a| ==> a[i] < a[j]
    ensures multiset(a)[x] <= 1
  {
    if a == [] {
    } else {
      var n := |a| - 1;
      OnceIn(a[..n], x);
      assert a == a[..n] + [a[n]];
      assert a[n] !in a[..n];
    }
  }

  /** Without a sort column a list keeps the order in which its rows came, while a rebuild sorts by
      time: it leaves the rows in place iff, row by row, the times of the events do not decrease and
      rows whose times are equal or do not convert are in logged order. */
  lemma RebuildKeepsArrivalOrderIff(d: Display, s: GuiState, view: ListView, r: ListState)
    requires Consistent(d, s) && AtRest(s) && !ListOf(s, view).sort.active
    requires TimesAgree(d.collation, s.log) && RebuiltList(d, s, view, r)
    ensures RowsOf(s.log, ListOf(s, view).rows)
    ensures r == ListOf(s, view) <==> RowsAllowed(d.collation, s.log, ListOf(s, view).rows)
  {
    hide ItemOrder, Visible, OverviewExact, Sorted, Preorders, Sequenced, TimesAgree, Identified, RowsAllowed;
    var l := ListOf(s, view);
    var v := Visible(d, s.filter, view, l.floor, s.log);
    VisibleIsExact(d, s.filter, view, l.floor, s.log);
    SequencedIdentified(s.log);
    SameMembers(v, l.rows);
    MembersRows(s.log, v, l.rows);
    RowsDiffer(v, l.rows);
    AllowedIsSorted(d.collation, view, s.log, l.rows);
    SortedRowsUnique(d.collation, view, DEFAULT_SORT, s.log, v, v, r.rows, r.rows);
    if RowsAllowed(d.collation, s.log, l.rows) {
      SortedRowsUnique(d.collation, view, DEFAULT_SORT, s.log, v, l.rows, r.rows, l.rows);
    }
  }

  /** In particular, rows in logged order stay iff no shown event converts to an earlier time than
      one shown before it. */
  lemma LoggedOrderStaysIff(d: Display, s: GuiState, view: ListView, r: ListState)
    requires Consistent(d, s) && AtRest(s) && !ListOf(s, view).sort.active
    requires TimesAgree(d.collation, s.log) && RebuiltList(d, s, view, r)
    requires var rows := ListOf(s, view).rows; forall i, j :: 0 <= i < j < |rows| ==> rows[i] < rows[j]
    ensures RowsOf(s.log, ListOf(s, view).rows)
    ensures r == ListOf(s, view) <==>
      forall i, j | 0 <= i < j < |ListOf(s, view).rows| ::
        NotEarlier(d.collation, s.log[ListOf(s, view).rows[i]], s.log[ListOf(s, view).rows[j]])
  {
    hide Consistent, RebuiltList, TimesAgree, ItemOrder, TimeAllows, NotEarlier;
    RebuildKeepsArrivalOrderIff(d, s, view, r);
    var rows := ListOf(s, view).rows;
    forall i, j | 0 <= i < j < |rows|
      ensures TimeAllows(d.collation, s.log, rows[i], rows[j]) <==>
        NotEarlier(d.collation, s.log[rows[i]], s.log[rows[j]])
    {
      AscendingAllows(d.collation, s.log, rows[i], rows[j]);
    }
  }

  /** If both times convert, the second is not earlier. */
  predicate NotEarlier(c: Collation, x: Event, y: Event) {
    match (c.convert(x.timestamp), c.convert(y.timestamp))
    case (Some(a), Some(b)) => a <= b
    case _ => true
  }

  lemma AscendingAllows(c: Collation, log: seq<Event>, i: nat, j: nat)
    requires i < j < |log|
    ensures TimeAllows(c, log, i, j) <==> NotEarlier(c, log[i], log[j])
  {
  }

  // ---- a rebuild that reorders ----

  const LATE := NO_EVENT.(sequence := 1, timestamp := Noon(9))
  const EARLY := NO_EVENT.(sequence := 2, timestamp := Noon(4))

  /** The window after these many of two events arrived in two drains, with these timeline rows. */
  ghost function Shown(d: Display, log: seq<Event>, rows: seq<nat>): GuiState {
    var none := Filter([], 0);
    OPENED.(log := log, timeline := EMPTY_LIST.(rows := rows), recent := NewestFew(d, none, false, 0, log),
            recentAlerts := NewestFew(d, none, true, 0, log))
  }

  lemma StartShows(d: Display, e: Event, view: ListView)
    requires e.kind.ProcessStart?
    ensures Shows(d, Filter([], 0), view, e) <==> view == TimelineView
  {
  }

  lemma ShownFrom(d: Display, view: ListView, log: seq<Event>, from: nat)
    requires log != [] && log[|log| - 1].kind.ProcessStart?
    ensures var (n, none) := (|log| - 1, Filter([], 0));
      VisibleFrom(d, none, view, 0, log, from) ==
        if n < from then []
        else if view == TimelineView then VisibleFrom(d, none, view, 0, log[..n], from) + [n]
        else VisibleFrom(d, none, view, 0, log[..n], from)
  {
    hide Shows;
    StartShows(d, log[|log| - 1], view);
  }

  lemma ShownLists(d: Display, log: seq<Event>, view: ListView, from: nat)
    requires log == [LATE] || log == [LATE, EARLY]
    ensures VisibleFrom(d, Filter([], 0), view, 0, log, from) ==
      if view != TimelineView || from >= |log| then [] else if |log| == 1 || from == 1 then [|log| - 1] else [0, 1]
  {
    hide Shows;
    assert [LATE, EARLY][..1] == [LATE] && [LATE][..0] == [];
    ShownFrom(d, view, log, from);
    ShownFrom(d, view, [LATE], from);
  }

  /** A list of at most one row, as any sort leaves it. */
  lemma SortedShort(d: Display, view: ListView, log: seq<Event>, l: ListState, force: bool)
    requires |l.rows| <= 1
    ensures SortedView(d, view, log, l, force, l)
  {
  }

  lemma EarlyFirst(d: Display)
    requires d.collation.convert == Calendar
    ensures CompareItems(d.collation, TimelineView, DEFAULT_SORT, [LATE, EARLY], 1, 0) <= 0
  {
    NoonConverts(9);
    NoonConverts(4);
  }

  lemma SwappedRows(d: Display)
    requires d.collation.convert == Calendar
    ensures SortOf(ItemOrder(d.collation, TimelineView, DEFAULT_SORT, [LATE, EARLY]), [0, 1], [1, 0])
  {
    hide CompareItems, Preorders;
    EarlyFirst(d);
    var rows: seq<nat> := [0, 1];
    assert multiset(rows) == multiset{0, 1};
  }

  lemma FirstShown(d: Display)
    ensures Next(d, OPENED, Drain([LATE]), Shown(d, [LATE], [0]))
  {
    hide Visible, NewestFew, SortedView;
    assert [] + [LATE] == [LATE];
    ShownAppends(d, OPENED, [LATE], TimelineView);
    ShownAppends(d, OPENED, [LATE], NetworkView);
    ShownAppends(d, OPENED, [LATE], AlertsView);
    SortedShort(d, TimelineView, [LATE], EMPTY_LIST.(rows := [0]), true);
    SortedShort(d, NetworkView, [LATE], EMPTY_LIST, true);
    SortedShort(d, AlertsView, [LATE], EMPTY_LIST, true);
  }

  /** What a drain of the next event appends. */
  lemma ShownAppends(d: Display, s: GuiState, log: seq<Event>, view: ListView)
    requires (s == OPENED && log == [LATE]) || (s == Shown(d, [LATE], [0]) && log == [LATE, EARLY])
    ensures Appended(d, s, view, log) ==
      EMPTY_LIST.(rows := if view != TimelineView then [] else if s == OPENED then [0] else [0, 1])
  {
    hide NewestFew, VisibleFrom;
    ShownLists(d, log, view, |s.log|);
  }

  lemma SecondShown(d: Display)
    ensures Next(d, Shown(d, [LATE], [0]), Drain([EARLY]), Shown(d, [LATE, EARLY], [0, 1]))
  {
    hide Visible, NewestFew, SortOf;
    var s := Shown(d, [LATE], [0]);
    assert [LATE] + [EARLY] == [LATE, EARLY];
    ShownAppends(d, s, [LATE, EARLY], TimelineView);
    ShownAppends(d, s, [LATE, EARLY], NetworkView);
    ShownAppends(d, s, [LATE, EARLY], AlertsView);
  }

  lemma Resorted(d: Display)
    requires d.collation.convert == Calendar
    ensures Next(d, Shown(d, [LATE, EARLY], [0, 1]), FilterSelected(0), Shown(d, [LATE, EARLY], [1, 0]))
  {
    hide VisibleFrom, NewestFew, SortOf, ItemOrder;
    var log := [LATE, EARLY];
    ShownLists(d, log, TimelineView, 0);
    ShownLists(d, log, NetworkView, 0);
    ShownLists(d, log, AlertsView, 0);
    SwappedRows(d);
    SortedShort(d, NetworkView, log, EMPTY_LIST, true);
    SortedShort(d, AlertsView, log, EMPTY_LIST, true);
  }

  /** A run of the window in which choosing the same filter again reorders the timeline: two events
      logged against the order of their times, each in a drain of its own. */
  lemma RebuildCanReorder(d: Display) returns (states: seq<GuiState>, commands: seq<Command>)
    requires d.collation.convert == Calendar
    ensures Behaviour(d, states, commands) && commands == [Drain([LATE]), Drain([EARLY]), FilterSelected(0)]
    ensures states[2].timeline.rows == [0, 1] && states[3].timeline.rows == [1, 0]
    ensures AtRest(states[2]) && !states[2].timeline.sort.active && states[2].filter == states[3].filter
  {
    hide Next, NewestFew;
    commands := [Drain([LATE]), Drain([EARLY]), FilterSelected(0)];
    states := [OPENED, Shown(d, [LATE], [0]), Shown(d, [LATE, EARLY], [0, 1]), Shown(d, [LATE, EARLY], [1, 0])];
    FirstShown(d);
    SecondShown(d);
    Resorted(d);
  }
}
