/** What the window shows (src/gui.c), told from the commands it was given since it opened: the events that
    arrived, the last clear of each view, the filters chosen, the pauses and the column clicks. */
module ViewCommands {
  import opened WideStrings
  import opened Formatting
  import opened Events
  import opened EventOrder
  import opened Views
  import TextExports

  // ---- the commands so far ----

  /** The events accepted so far. */
  function Logged(commands: seq<Command>): seq<Event> {
    if commands == [] then []
    else
      var before := Logged(commands[..|commands| - 1]);
      match commands[|commands| - 1] case Drain(accepted) => before + accepted case _ => before
  }

  /** How many of them had arrived when the tab was last cleared; none if it never was. */
  function Since(commands: seq<Command>, tab: Tab): nat {
    if commands == [] then 0
    else
      var before := commands[..|commands| - 1];
      if commands[|commands| - 1] == ClearClicked(tab) then |Logged(before)| else Since(before, tab)
  }

  /** The text in the search box: the one entered last, as far as the buffer of 256 units holds it. */
  function Searched(commands: seq<Command>): Wide {
    if commands == [] then []
    else
      match commands[|commands| - 1]
      case SearchChanged(text) => text[..Min(|text|, 255)]
      case _ => Searched(commands[..|commands| - 1])
  }

  /** The entry of the event filter chosen last; the first one at the start. */
  function Selected(commands: seq<Command>): int {
    if commands == [] then 0
    else
      match commands[|commands| - 1]
      case FilterSelected(selection) => selection
      case _ => Selected(commands[..|commands| - 1])
  }

  /** A changed search whose timer has not fired. */
  predicate Pending(commands: seq<Command>) {
    commands != [] &&
    match commands[|commands| - 1]
    case SearchChanged(_) => true
    case FilterTimer => false
    case _ => Pending(commands[..|commands| - 1])
  }

  /** The pause button was clicked an odd number of times. */
  predicate Paused(commands: seq<Command>) {
    commands != [] && Paused(commands[..|commands| - 1]) == !commands[|commands| - 1].PauseClicked?
  }

  /** The columns of a list that were clicked, in order. */
  function Clicks(commands: seq<Command>, view: ListView): seq<int> {
    if commands == [] then []
    else
      var before := Clicks(commands[..|commands| - 1], view);
      match commands[|commands| - 1]
      case ColumnClicked(v, column) => if v == view then before + [column] else before
      case _ => before
  }

  /** How often the last clicked column was clicked in a row. */
  function Streak(clicks: seq<int>): nat {
    if clicks == [] then 0
    else
      var n := |clicks| - 1;
      if n > 0 && clicks[n - 1] == clicks[n] then Streak(clicks[..n]) + 1 else 1
  }

  /** A list is sorted by the column clicked last, upwards at the first click and then back and forth. */
  predicate SortedAfter(sort: SortState, clicks: seq<int>) {
    if clicks == [] then !sort.active
    else sort.active && sort.column == clicks[|clicks| - 1] && sort.ascending == (Streak(clicks) % 2 == 1)
  }

  /** The state has taken in the commands, as far as one list goes. */
  ghost predicate ListTakesIn(s: GuiState, commands: seq<Command>, view: ListView) {
    var l := ListOf(s, view);
    l.floor == Since(commands, ListTab(view)) && SortedAfter(l.sort, Clicks(commands, view))
  }

  /** The state has taken in the commands. */
  ghost predicate Follows(s: GuiState, commands: seq<Command>) {
    && s.log == Logged(commands) && s.overviewFloor == Since(commands, OverviewTab)
    && s.filter == Filter(Searched(commands), Selected(commands))
    && s.timerActive == Pending(commands) && s.paused == Paused(commands)
    && forall view :: ListTakesIn(s, commands, view)
  }

  // ---- the state follows ----

  lemma SearchCut(text: Wide)
    ensures Truncated(text, SEARCH_LENGTH) == text[..Min(|text|, 255)]
  {
  }

  lemma ClicksAppend(clicks: seq<int>, column: int, sort: SortState)
    requires SortedAfter(sort, clicks)
    ensures SortedAfter(Toggled(sort, column), clicks + [column])
  {
    assert (clicks + [column])[..|clicks|] == clicks;
  }

  /** What one more command adds to the history. */
  lemma HistoryNext(commands: seq<Command>, command: Command)
    ensures var more := commands + [command];
      && Logged(more) == Logged(commands) + (if command.Drain? then command.accepted else [])
      && (forall tab :: Since(more, tab) ==
            if command == ClearClicked(tab) then |Logged(commands)| else Since(commands, tab))
      && Searched(more) == (if command.SearchChanged? then command.text[..Min(|command.text|, 255)]
                            else Searched(commands))
      && Selected(more) == (if command.FilterSelected? then command.selection else Selected(commands))
      && Pending(more) == (command.SearchChanged? || (!command.FilterTimer? && Pending(commands)))
      && Paused(more) == (Paused(commands) != command.PauseClicked?)
      && (forall view :: Clicks(more, view) ==
            Clicks(commands, view) + if command.ColumnClicked? && command.view == view then [command.column] else [])
  {
    var more := commands + [command];
    assert more[..|more| - 1] == commands && more[|more| - 1] == command;
  }

  // What a command does besides moving rows.

  ghost predicate ListMoves(s: GuiState, command: Command, t: GuiState, view: ListView) {
    var (l, r) := (ListOf(s, view), ListOf(t, view));
    && r.floor == (if command == ClearClicked(ListTab(view)) then |s.log| else l.floor)
    && r.sort == if command.ColumnClicked? && command.view == view then Toggled(l.sort, command.column) else l.sort
  }

  ghost predicate Changes(s: GuiState, command: Command, t: GuiState) {
    && t.log == s.log + (if command.Drain? then command.accepted else [])
    && t.overviewFloor == (if command == ClearClicked(OverviewTab) then |s.log| else s.overviewFloor)
    && t.filter.search == (if command.SearchChanged? then Truncated(command.text, SEARCH_LENGTH) else s.filter.search)
    && t.filter.selection == (if command.FilterSelected? then command.selection else s.filter.selection)
    && t.timerActive == (command.SearchChanged? || (!command.FilterTimer? && s.timerActive))
    && t.paused == (s.paused != command.PauseClicked?)
    && forall view :: ListMoves(s, command, t, view)
  }

  /** The states differ in rows, and in whether the display is behind. */
  ghost predicate RowsOnly(s: GuiState, t: GuiState) {
    && t == s.(timeline := t.timeline, network := t.network, alerts := t.alerts, recent := t.recent,
               recentAlerts := t.recentAlerts, dirty := t.dirty)
    && forall view :: ListOf(t, view) == ListOf(s, view).(rows := ListOf(t, view).rows)
  }

  lemma RowsDoNotMatter(s: GuiState, command: Command, u: GuiState, t: GuiState)
    requires Changes(s, command, u) && RowsOnly(u, t)
    ensures Changes(s, command, t)
  {
    hide Truncated, Toggled, ListOf;
    forall view ensures ListMoves(s, command, t, view) {
      assert ListMoves(s, command, u, view);
    }
  }

  /** The state after the command, before any rows move. */
  function Moved(s: GuiState, command: Command): GuiState {
    match command
    case Drain(accepted) => s.(log := s.log + accepted)
    case SearchChanged(text) => s.(filter := s.filter.(search := Truncated(text, SEARCH_LENGTH)), timerActive := true)
    case FilterTimer => s.(timerActive := false)
    case FilterSelected(selection) => s.(filter := s.filter.(selection := selection))
    case PauseClicked => s.(paused := !s.paused)
    case ClearClicked(tab) => Cleared(s, tab)
    case ColumnClicked(TimelineView, column) => s.(timeline := s.timeline.(sort := Toggled(s.timeline.sort, column)))
    case ColumnClicked(NetworkView, column) => s.(network := s.network.(sort := Toggled(s.network.sort, column)))
    case ColumnClicked(AlertsView, column) => s.(alerts := s.alerts.(sort := Toggled(s.alerts.sort, column)))
  }

  lemma MovedList(s: GuiState, command: Command, view: ListView)
    ensures ListMoves(s, command, Moved(s, command), view)
  {
    hide Truncated, Toggled;
  }

  lemma MovedChanges(s: GuiState, command: Command)
    ensures Changes(s, command, Moved(s, command))
  {
    hide Truncated, Toggled, ListMoves;
    assert s.log + [] == s.log;
    forall view ensures ListMoves(s, command, Moved(s, command), view) {
      MovedList(s, command, view);
    }
  }

  lemma RebuiltRows(d: Display, s: GuiState, t: GuiState)
    requires Rebuilt(d, s, t)
    ensures RowsOnly(s, t)
  {
    hide Visible, ItemOrder, OverviewExact;
  }

  lemma RefilteredRows(d: Display, s: GuiState, t: GuiState)
    requires Refiltered(d, s, t)
    ensures RowsOnly(s, t)
  {
    hide Rebuilt;
    if !s.paused {
      RebuiltRows(d, s, t);
    }
  }

  lemma DrainedRows(d: Display, s: GuiState, accepted: seq<Event>, t: GuiState)
    requires Drained(d, s, accepted, t)
    ensures RowsOnly(s.(log := s.log + accepted), t)
  {
    hide VisibleFrom, ItemOrder, OverviewExact;
    assert s.log + [] == s.log;
  }

  lemma ColumnRows(d: Display, s: GuiState, view: ListView, column: int, t: GuiState)
    requires ColumnSorted(d, s, view, column, t)
    ensures RowsOnly(Moved(s, ColumnClicked(view, column)), t)
  {
    hide ItemOrder, Toggled;
  }

  lemma SameRows(s: GuiState, dirty: bool)
    ensures RowsOnly(s, s.(dirty := dirty))
  {
  }

  lemma NextMoves(d: Display, s: GuiState, command: Command, t: GuiState)
    requires Next(d, s, command, t)
    ensures RowsOnly(Moved(s, command), t)
  {
    hide Rebuilt, Refiltered, Drained, ColumnSorted, Sequenced, Truncated, Toggled, RowsOnly, Cleared;
    SameRows(Moved(s, command), s.dirty);
    match command
    case Drain(accepted) => DrainedRows(d, s, accepted, t);
    case ColumnClicked(view, column) => ColumnRows(d, s, view, column, t);
    case FilterTimer => RefilteredRows(d, Moved(s, command), t);
    case FilterSelected(_) => RefilteredRows(d, Moved(s, command), t);
    case PauseClicked => PauseRows(d, s, t);
    case _ => ClearsKeepDirt(s, command);
  }

  lemma ClearsKeepDirt(s: GuiState, command: Command)
    requires command.SearchChanged? || command.ClearClicked?
    ensures Moved(s, command).dirty == s.dirty
  {
    hide Truncated;
  }

  lemma PauseRows(d: Display, s: GuiState, t: GuiState)
    requires Next(d, s, PauseClicked, t)
    ensures RowsOnly(s.(paused := !s.paused), t)
  {
    hide Rebuilt, RowsOnly;
    SameRows(s.(paused := !s.paused), s.dirty);
    if s.paused && s.dirty {
      RebuiltRows(d, s.(paused := false, dirty := false), t);
      AnyDirt(s.(paused := false), t);
    }
  }

  lemma AnyDirt(s: GuiState, t: GuiState)
    requires RowsOnly(s.(dirty := false), t)
    ensures RowsOnly(s, t)
  {
    forall view ensures ListOf(t, view) == ListOf(s, view).(rows := ListOf(t, view).rows) {
      assert ListOf(s.(dirty := false), view) == ListOf(s, view);
    }
  }

  lemma NextChanges(d: Display, s: GuiState, command: Command, t: GuiState)
    requires Next(d, s, command, t)
    ensures Changes(s, command, t)
  {
    hide Next, Changes, RowsOnly;
    NextMoves(d, s, command, t);
    MovedChanges(s, command);
    RowsDoNotMatter(s, command, Moved(s, command), t);
  }

  lemma ListTakesInNext(d: Display, s: GuiState, commands: seq<Command>, command: Command, t: GuiState, view: ListView)
    requires s.log == Logged(commands) && ListTakesIn(s, commands, view) && Next(d, s, command, t)
    ensures ListTakesIn(t, commands + [command], view)
  {
    hide Next, Streak, SortedAfter, Toggled, Logged, Since, Clicks, ListOf;
    HistoryNext(commands, command);
    NextChanges(d, s, command, t);
    assert ListMoves(s, command, t, view);
    if command.ColumnClicked? && command.view == view {
      ClicksAppend(Clicks(commands, view), command.column, ListOf(s, view).sort);
    } else {
      assert Clicks(commands, view) + [] == Clicks(commands, view);
    }
  }

  lemma NextFollows(d: Display, s: GuiState, commands: seq<Command>, command: Command, t: GuiState)
    requires Follows(s, commands) && Next(d, s, command, t)
    ensures Follows(t, commands + [command])
  {
    hide Next, Truncated, ListTakesIn, Logged, Since, Searched, Selected, Pending, Paused;
    HistoryNext(commands, command);
    NextChanges(d, s, command, t);
    if command.SearchChanged? {
      SearchCut(command.text);
    }
    forall view ensures ListTakesIn(t, commands + [command], view) {
      ListTakesInNext(d, s, commands, command, t, view);
    }
  }

  /** Every reachable state has taken in the commands given so far. */
  lemma {:induction false} BehaviourFollows(d: Display, states: seq<GuiState>, commands: seq<Command>, n: nat)
    requires Behaviour(d, states, commands) && n < |states|
    ensures Follows(states[n], commands[..n])
  {
    hide Next, Follows;
    if n == 0 {
      NothingFollows();
    } else {
      BehaviourFollows(d, states, commands, n - 1);
      NextFollows(d, states[n - 1], commands[..n - 1], commands[n - 1], states[n]);
      assert commands[..n - 1] + [commands[n - 1]] == commands[..n];
    }
  }

  lemma NothingFollows()
    ensures Follows(OPENED, [])
  {
  }

  // ---- what passes the filters ----

  /** The entries of the event filter. */
  const CHOICES := ["All", "Process", "Network", "Alert"]

  /** The event's type is the chosen entry; the first entry, and no entry, let everything pass. */
  predicate Chosen(selection: int, e: Event) {
    1 <= selection <= 3 ==> EventCategoryName(e.kind) == W(CHOICES[selection])
  }

  /** The type shown for an event. */
  lemma Categories(kind: EventType)
    ensures EventCategoryName(kind) == W("Process") <==> kind.ProcessStart? || kind.ProcessStop?
    ensures EventCategoryName(kind) == W("Network") <==> kind.Network?
    ensures EventCategoryName(kind) == W("Alert") <==> kind.Alert?
    ensures EventCategoryName(kind) == W("File") <==> kind.File?
    ensures EventCategoryName(kind) == W("Registry") <==> kind.Registry?
  {
    assert W("Process")[0] == 0x50 && W("Network")[0] == 0x4E;
  }

  lemma TypeIsChosen(selection: int, e: Event)
    ensures MatchesType(selection, e) <==> Chosen(selection, e)
  {
    hide EventCategoryName, W;
    Categories(e.kind);
  }

  /** PID, parent PID and the two ports, as a search sees them. */
  function Numbers(e: Event): Wide {
    Decimal(e.process.pid) + W(" ") + Decimal(e.parent.pid) + W(" ") + Decimal(e.localPort) + W(" ") +
    Decimal(e.remotePort)
  }

  /** The text occurs, up to case, in one of twelve places. */
  ghost predicate Found(fold: Unit -> Unit, search: Wide, e: Event) {
    || search == []
    || ContainsFolded(fold, e.processName, search)
    || ContainsFolded(fold, e.parentName, search)
    || ContainsFolded(fold, e.executablePath, search)
    || ContainsFolded(fold, e.details, search)
    || ContainsFolded(fold, e.remoteAddress, search)
    || ContainsFolded(fold, e.localAddress, search)
    || ContainsFolded(fold, e.protocol, search)
    || ContainsFolded(fold, e.networkState, search)
    || ContainsFolded(fold, e.ruleName, search)
    || ContainsFolded(fold, EventTypeName(e.kind), search)
    || ContainsFolded(fold, EventCategoryName(e.kind), search)
    || ContainsFolded(fold, Numbers(e), search)
  }

  /** The buffer of 96 units holds the numbers whole. */
  lemma NumbersFit(e: Event)
    ensures NumericFields(e) == Numbers(e)
  {
    hide Decimal, W;
    assert |W(" ")| == 1;
    TextExports.PidDigits(e.process.pid);
    TextExports.PidDigits(e.parent.pid);
    TextExports.PidDigits(e.localPort);
    TextExports.PidDigits(e.remotePort);
  }

  lemma SearchFinds(fold: Unit -> Unit, search: Wide, e: Event)
    ensures MatchesSearch(fold, search, e) <==> Found(fold, search, e)
  {
    hide ContainsFolded, NumericFields, Numbers, EventTypeName, EventCategoryName;
    NumbersFit(e);
    var t := SearchedTexts(e);
    assert t[0] == e.processName && t[1] == e.parentName && t[2] == e.executablePath && t[3] == e.details;
    assert t[4] == e.remoteAddress && t[5] == e.localAddress && t[6] == e.protocol && t[7] == e.networkState;
    assert t[8] == e.ruleName && t[9] == EventTypeName(e.kind) && t[10] == EventCategoryName(e.kind);
    assert t[11] == Numbers(e);
  }

  /** The event belongs in the list after these commands; only the timeline obeys the event filter. */
  ghost predicate Displayed(d: Display, commands: seq<Command>, view: ListView, e: Event) {
    && Found(d.lower, Searched(commands), e)
    && match view
       case TimelineView => Chosen(Selected(commands), e)
       case NetworkView => e.kind.Network?
       case AlertsView => e.kind.Alert?
  }

  /** And in the overview, which obeys both filters: among its alerts, or among the rest. */
  ghost predicate Overviewed(d: Display, commands: seq<Command>, alerts: bool, i: int) {
    var log := Logged(commands);
    && Since(commands, OverviewTab) <= i < |log| && log[i].kind.Alert? == alerts
    && Found(d.lower, Searched(commands), log[i]) && Chosen(Selected(commands), log[i])
  }

  // ---- what is on display ----

  /** The window is at rest unless it is paused or a changed search waits for its timer. */
  lemma RestsUnlessPaused(d: Display, states: seq<GuiState>, commands: seq<Command>, n: nat)
    requires Behaviour(d, states, commands) && n < |states|
    requires !Paused(commands[..n]) && !Pending(commands[..n])
    ensures AtRest(states[n])
  {
    hide Behaviour, ListExact, OverviewExact, Sequenced;
    BehaviourFollows(d, states, commands, n);
    BehaviourConsistent(d, states, commands, n);
  }

  /** At rest a list shows, each once, exactly the passing events that arrived since its view was last
      cleared, or since the start, and it is sorted as its columns were clicked. */
  lemma ListFollows(d: Display, states: seq<GuiState>, commands: seq<Command>, n: nat, view: ListView)
    requires Behaviour(d, states, commands) && n < |states| && AtRest(states[n])
    ensures var (l, h) := (ListOf(states[n], view), commands[..n]);
      && (forall i :: multiset(l.rows)[i] ==
            if Since(h, ListTab(view)) <= i < |Logged(h)| && Displayed(d, h, view, Logged(h)[i]) then 1 else 0)
      && SortedAfter(l.sort, Clicks(h, view))
  {
    hide Next, MatchesSearch, Found, MatchesType, Chosen, Since, Logged, SortedAfter, Sortable;
    BehaviourFollows(d, states, commands, n);
    assert ListTakesIn(states[n], commands[..n], view);
    ListsAreExact(d, states, commands, n, view);
    var (s, h) := (states[n], commands[..n]);
    forall e: Event ensures Shows(d, s.filter, view, e) <==> Displayed(d, h, view, e) {
      SearchFinds(d.lower, Searched(h), e);
      TypeIsChosen(Selected(h), e);
    }
  }

  /** The newest few of the candidates, newest first: one is missing only from a full list, and then it is
      older than everything listed. */
  ghost predicate NewestOf(d: Display, commands: seq<Command>, alerts: bool, limit: nat, few: seq<nat>) {
    && |few| <= limit && (forall p, q :: 0 <= p < q < |few| ==> few[p] > few[q])
    && (forall i :: i in few ==> Overviewed(d, commands, alerts, i))
    && (forall i :: Overviewed(d, commands, alerts, i) && i !in few ==>
          |few| == limit && forall p :: 0 <= p < |few| ==> i < few[p])
  }

  /** At rest the overview shows the newest 8 events and the newest 5 alerts of those that pass and arrived
      since it was last cleared. */
  lemma OverviewFollows(d: Display, states: seq<GuiState>, commands: seq<Command>, n: nat)
    requires Behaviour(d, states, commands) && n < |states| && AtRest(states[n])
    ensures NewestOf(d, commands[..n], false, 8, states[n].recent)
    ensures NewestOf(d, commands[..n], true, 5, states[n].recentAlerts)
  {
    hide Behaviour, MatchesSearch, Found, MatchesType, Chosen, Since, Logged, NewestFew, Follows;
    OverviewIsExact(d, states, commands, n);
    NewestFollows(d, states, commands, n, false);
    NewestFollows(d, states, commands, n, true);
  }

  lemma NewestFollows(d: Display, states: seq<GuiState>, commands: seq<Command>, n: nat, alerts: bool)
    requires Behaviour(d, states, commands) && n < |states|
    ensures var s := states[n];
      NewestOf(d, commands[..n], alerts, if alerts then 5 else 8,
               NewestFew(d, s.filter, alerts, s.overviewFloor, s.log))
  {
    hide Next, MatchesSearch, Found, MatchesType, Chosen, Since, Logged, NewestFew;
    BehaviourFollows(d, states, commands, n);
    var (s, h) := (states[n], commands[..n]);
    NewestFewIsExact(d, s.filter, alerts, s.overviewFloor, s.log);
    forall i ensures Candidate(d, s.filter, alerts, s.overviewFloor, s.log, i) <==> Overviewed(d, h, alerts, i) {
      if 0 <= i < |s.log| {
        SearchFinds(d.lower, Searched(h), s.log[i]);
        TypeIsChosen(Selected(h), s.log[i]);
      }
    }
  }
}
