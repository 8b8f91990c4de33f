/** What a sorted list looks like (src/gui.c), told from what its rows show under the title of the column. */
module SortedLists {
  import opened WideStrings
  import opened Events
  import opened Sorting
  import opened EventOrder
  import opened Views

  /** The column titles of the lists. */
  function Titles(view: ListView): seq<string> {
    match view
    case TimelineView => ["Time", "Type", "Process", "PID", "Details"]
    case NetworkView => ["Time", "Process", "PID", "Protocol", "Local Address", "Remote Address", "State"]
    case AlertsView => ["Time", "Severity", "Rule", "Process", "Details"]
  }

  /** What a row shows in a column: a time by its converted value, a severity by its rank. */
  datatype Entry =
    | Blank
    | Number(value: nat)
    | Text(text: Wide)
    | Endpoint(address: Wide, port: Word)
    | Moment(time: Option<Qword>)

  function EntryUnder(title: string, c: Collation, e: Event): Entry {
    if title == "Time" then Moment(c.convert(e.timestamp))
    else if title == "Process" then Text(e.processName)
    else if title == "PID" then Number(e.process.pid)
    else if title == "Details" then Text(e.details)
    else if title == "Type" then Text(EventCategoryName(e.kind))
    else if title == "Protocol" then Text(e.protocol)
    else if title == "Local Address" then Endpoint(e.localAddress, e.localPort)
    else if title == "Remote Address" then Endpoint(e.remoteAddress, e.remotePort)
    else if title == "State" then Text(e.networkState)
    else if title == "Rule" then Text(e.ruleName)
    else if title == "Severity" then
      Number(match e.severity case NoSeverity => 0 case Info => 1 case Low => 2 case Medium => 3 case High => 4)
    else Blank
  }

  function EntryOf(view: ListView, column: int, c: Collation, e: Event): Entry {
    if 0 <= column < |Titles(view)| then EntryUnder(Titles(view)[column], c, e) else Blank
  }

  /** `a` comes before `b` in the dictionary of folded units: they part at unit `k`. */
  ghost predicate PartsAt(fold: Unit -> Unit, a: Wide, b: Wide, k: nat) {
    && k <= |a| && k < |b| && (forall i :: 0 <= i < k ==> fold(a[i]) == fold(b[i]))
    && (k == |a| || fold(a[k]) < fold(b[k]))
  }

  ghost predicate TextBelow(fold: Unit -> Unit, a: Wide, b: Wide) { exists k: nat :: PartsAt(fold, a, b, k) }

  ghost predicate TextSame(fold: Unit -> Unit, a: Wide, b: Wide) {
    |a| == |b| && forall i :: 0 <= i < |a| ==> fold(a[i]) == fold(b[i])
  }

  /** One entry belongs above another of the same column in ascending order.  A time that does not convert
      compares with none. */
  ghost predicate Below(c: Collation, x: Entry, y: Entry) {
    match (x, y)
    case (Number(a), Number(b)) => a < b
    case (Text(a), Text(b)) => TextBelow(c.upper, a, b)
    case (Endpoint(a, p), Endpoint(b, q)) => TextBelow(c.upper, a, b) || (TextSame(c.upper, a, b) && p < q)
    case (Moment(Some(a)), Moment(Some(b))) => a < b
    case _ => false
  }

  /** Row `i` with entry `x` may stand above row `j` with entry `y`: by the entries, and where they do not
      tell by the order of logging, both in the list's direction. */
  ghost predicate MayPrecede(c: Collation, ascending: bool, x: Entry, i: nat, y: Entry, j: nat) {
    if ascending then Below(c, x, y) || (!Below(c, y, x) && i < j)
    else Below(c, y, x) || (!Below(c, x, y) && i > j)
  }

  // ---- the comparator against the entries ----

  lemma PartsFirst(fold: Unit -> Unit, a: Wide, b: Wide)
    requires a != [] && b != []
    ensures TextBelow(fold, a, b) <==>
      fold(a[0]) < fold(b[0]) || (fold(a[0]) == fold(b[0]) && TextBelow(fold, a[1..], b[1..]))
  {
    if fold(a[0]) < fold(b[0]) {
      assert PartsAt(fold, a, b, 0);
    }
    if k: nat :| PartsAt(fold, a[1..], b[1..], k) {
      if fold(a[0]) == fold(b[0]) {
        assert forall i :: 0 <= i < k + 1 ==> fold(a[i]) == fold(b[i]) by {
          assert forall i :: 1 <= i < k + 1 ==> a[i] == a[1..][i - 1] && b[i] == b[1..][i - 1];
        }
        assert PartsAt(fold, a, b, k + 1);
      }
    }
    if k: nat :| PartsAt(fold, a, b, k) {
      if k > 0 {
        assert PartsAt(fold, a[1..], b[1..], k - 1);
      }
    }
  }

  /** Ordinal comparison is the dictionary order of the folded texts. */
  lemma {:induction false} OrdinalBelow(fold: Unit -> Unit, a: Wide, b: Wide)
    ensures CompareOrdinal(fold, a, b) < 0 <==> TextBelow(fold, a, b)
  {
    if a == [] {
      assert b != [] ==> PartsAt(fold, a, b, 0);
    } else if b == [] {
    } else {
      PartsFirst(fold, a, b);
      hide TextBelow;
      OrdinalBelow(fold, a[1..], b[1..]);
    }
  }

  lemma TextsOrdered(c: Collation, a: Wide, b: Wide)
    ensures CompareText(c, a, b) < 0 <==> TextBelow(c.upper, a, b)
    ensures CompareText(c, a, b) > 0 <==> TextBelow(c.upper, b, a)
    ensures CompareText(c, a, b) == 0 <==> TextSame(c.upper, a, b)
  {
    hide CompareOrdinal, TextBelow;
    OrdinalBelow(c.upper, a, b);
    OrdinalBelow(c.upper, b, a);
    OrdinalReflects(c.upper, a, b);
    OrdinalEqual(c.upper, a, b);
  }

  lemma TitlesDiffer()
    ensures "Time" != "Type" && "Time" != "Rule" && "Type" != "Rule"
    ensures "Process" != "Details" && "Protocol" != "Severity"
  {
    assert "Time"[2] == 'm' && "Type"[2] == 'p' && "Rule"[2] == 'l';
    assert "Process"[0] == 'P' && "Details"[0] == 'D' && "Protocol"[0] == 'P' && "Severity"[0] == 'S';
  }

  /** The comparison `r` of two events agrees with how their entries stand; for times, the order of logging
      has its say already. */
  ghost predicate Agrees(c: Collation, r: int, a: Entry, b: Entry, x: Event, y: Event) {
    && (Below(c, a, b) ==> r < 0) && (Below(c, b, a) ==> r > 0)
    && (!Below(c, a, b) && !Below(c, b, a) ==> r == if a.Moment? then CompareNumbers(x.sequence, y.sequence) else 0)
  }

  lemma TextsAgree(c: Collation, a: Wide, b: Wide, x: Event, y: Event)
    ensures Agrees(c, CompareText(c, a, b), Text(a), Text(b), x, y)
  {
    hide CompareText, TextBelow, TextSame;
    TextsOrdered(c, a, b);
  }

  lemma EndpointsAgree(c: Collation, a: Wide, p: Word, b: Wide, q: Word, x: Event, y: Event)
    ensures Agrees(c, CompareEndpoints(c, a, p, b, q), Endpoint(a, p), Endpoint(b, q), x, y)
  {
    hide CompareText, TextBelow, TextSame;
    TextsOrdered(c, a, b);
    TextsOrdered(c, b, a);
  }

  lemma OthersAgree(c: Collation, x: Event, y: Event)
    ensures forall m: nat, n: nat :: Agrees(c, CompareNumbers(m, n), Number(m), Number(n), x, y)
    ensures Agrees(c, 0, Blank, Blank, x, y)
    ensures Agrees(c, CompareTimes(c, x, y), Moment(c.convert(x.timestamp)), Moment(c.convert(y.timestamp)), x, y)
  {
  }

  lemma ColumnShows(c: Collation, view: ListView, column: int, x: Event, y: Event)
    ensures Agrees(c, CompareColumn(c, view, column, x, y), EntryOf(view, column, c, x), EntryOf(view, column, c, y),
                   x, y)
  {
    hide CompareText, CompareEndpoints, CompareTimes, CompareNumbers, Agrees, EventCategoryName;
    TitlesDiffer();
    OthersAgree(c, x, y);
    TextsAgree(c, EventCategoryName(x.kind), EventCategoryName(y.kind), x, y);
    TextsAgree(c, x.processName, y.processName, x, y);
    TextsAgree(c, x.details, y.details, x, y);
    TextsAgree(c, x.protocol, y.protocol, x, y);
    TextsAgree(c, x.networkState, y.networkState, x, y);
    TextsAgree(c, x.ruleName, y.ruleName, x, y);
    EndpointsAgree(c, x.localAddress, x.localPort, y.localAddress, y.localPort, x, y);
    EndpointsAgree(c, x.remoteAddress, x.remotePort, y.remoteAddress, y.remotePort, x, y);
  }

  lemma ItemsShow(c: Collation, view: ListView, sort: SortState, log: seq<Event>, i: nat, j: nat)
    requires Sequenced(log) && i < |log| && j < |log| && i != j
    ensures CompareItems(c, view, sort, log, i, j) <= 0 <==>
      MayPrecede(c, sort.ascending, EntryOf(view, sort.column, c, log[i]), i,
                 EntryOf(view, sort.column, c, log[j]), j)
  {
    hide CompareColumn, EntryOf, Below;
    ColumnShows(c, view, sort.column, log[i], log[j]);
    ColumnShows(c, view, sort.column, log[j], log[i]);
  }

  // ---- sorted lists ----

  /** The rows stand as their entries in this column allow, each pair of them. */
  ghost predicate InColumnOrder(c: Collation, view: ListView, sort: SortState, log: seq<Event>, rows: seq<nat>)
    requires RowsOf(log, rows)
  {
    forall p, q :: 0 <= p < q < |rows| ==>
      MayPrecede(c, sort.ascending, EntryOf(view, sort.column, c, log[rows[p]]), rows[p],
                 EntryOf(view, sort.column, c, log[rows[q]]), rows[q])
  }

  lemma SortedShows(c: Collation, view: ListView, sort: SortState, log: seq<Event>, rows: seq<nat>)
    requires Sequenced(log) && RowsOf(log, rows) && forall p, q :: 0 <= p < q < |rows| ==> rows[p] != rows[q]
    ensures Sorted(ItemOrder(c, view, sort, log), rows) <==> InColumnOrder(c, view, sort, log, rows)
  {
    hide CompareItems, MayPrecede, EntryOf, Sequenced;
    forall p, q | 0 <= p < q < |rows|
      ensures ItemOrder(c, view, sort, log)(rows[p], rows[q]) <= 0 <==>
        MayPrecede(c, sort.ascending, EntryOf(view, sort.column, c, log[rows[p]]), rows[p],
                   EntryOf(view, sort.column, c, log[rows[q]]), rows[q])
    {
      ItemsShow(c, view, sort, log, rows[p], rows[q]);
    }
  }

  /** In every reachable state at rest a list with an active sort column stands in the order of what its
      rows show there, upwards or downwards, and rows that show the same in the order of logging. */
  lemma ListsAreOrdered(d: Display, states: seq<GuiState>, commands: seq<Command>, n: nat, view: ListView)
    requires Behaviour(d, states, commands) && n < |states| && AtRest(states[n])
    requires var l := ListOf(states[n], view); l.sort.active && Sortable(d.collation, l.sort, states[n].log)
    ensures var (s, l) := (states[n], ListOf(states[n], view));
      RowsOf(s.log, l.rows) && InColumnOrder(d.collation, view, l.sort, s.log, l.rows)
  {
    hide Behaviour, Visible, ItemOrder, Sortable, Sorted, OverviewExact, InColumnOrder, Sequenced;
    BehaviourConsistent(d, states, commands, n);
    var (s, l) := (states[n], ListOf(states[n], view));
    var v := Visible(d, s.filter, view, l.floor, s.log);
    VisibleIsExact(d, s.filter, view, l.floor, s.log);
    SameMembers(v, l.rows);
    MembersRows(s.log, v, l.rows);
    RowsDiffer(v, l.rows);
    SortedShows(d.collation, view, l.sort, s.log, l.rows);
  }

  // ---- lists without a sort column ----

  /** The first drain leaves a list without a sort column in the order of time. */
  lemma FirstDrainByTime(d: Display, s: GuiState, accepted: seq<Event>, t: GuiState, view: ListView)
    requires Next(d, s, Drain(accepted), t) && s.log == [] && accepted != [] && !s.paused
    requires ListOf(s, view).rows == [] && !ListOf(s, view).sort.active && TimesAgree(d.collation, t.log)
    ensures RowsOf(t.log, ListOf(t, view).rows)
    ensures InColumnOrder(d.collation, view, SortState(0, true, true), t.log, ListOf(t, view).rows)
  {
    hide VisibleFrom, ItemOrder, Sorted, Preorders, Sequenced, InColumnOrder, NewestFew, TimesAgree, Identified;
    var (l, r) := (ListOf(s, view), ListOf(t, view));
    var v := Visible(d, s.filter, view, l.floor, t.log);
    assert [] + v == v;
    assert SortedView(d, view, t.log, l.(rows := v), true, r);
    VisibleIsExact(d, s.filter, view, l.floor, t.log);
    SequencedIdentified(t.log);
    RowsOrdered(d.collation, view, DEFAULT_SORT, t.log, v);
    SameMembers(v, r.rows);
    MembersRows(t.log, v, r.rows);
    RowsDiffer(v, r.rows);
    SortedShows(d.collation, view, DEFAULT_SORT, t.log, r.rows);
    SameColumn(d.collation, view, t.log, r.rows);
  }

  lemma SameColumn(c: Collation, view: ListView, log: seq<Event>, rows: seq<nat>)
    requires RowsOf(log, rows) && InColumnOrder(c, view, DEFAULT_SORT, log, rows)
    ensures InColumnOrder(c, view, SortState(0, true, true), log, rows)
  {
    hide MayPrecede, EntryOf;
  }

  /** The rows from `from` on that the list shows, in the order of logging. */
  ghost predicate NewRows(d: Display, filter: Filter, view: ListView, floor: nat, log: seq<Event>, from: nat,
                          rows: seq<nat>)
  {
    && (forall i :: i in rows <==> from <= i < |log| && floor <= i && Shows(d, filter, view, log[i]))
    && (forall p, q :: 0 <= p < q < |rows| ==> rows[p] < rows[q])
  }

  lemma {:induction false} VisibleFromIs(d: Display, filter: Filter, view: ListView, floor: nat, log: seq<Event>,
                                         from: nat)
    ensures NewRows(d, filter, view, floor, log, from, VisibleFrom(d, filter, view, floor, log, from))
  {
    hide Shows;
    if |log| <= from {
    } else {
      var n := |log| - 1;
      VisibleFromIs(d, filter, view, floor, log[..n], from);
      assert forall i :: 0 <= i < n ==> log[..n][i] == log[i];
      var earlier := VisibleFrom(d, filter, view, floor, log[..n], from);
      forall p | 0 <= p < |earlier| ensures earlier[p] < n {
        assert earlier[p] in earlier;
      }
    }
  }

  /** Every later one appends the new rows in the order of logging and moves none. */
  lemma LaterDrainsAppend(d: Display, s: GuiState, accepted: seq<Event>, t: GuiState, view: ListView)
    returns (added: seq<nat>)
    requires Next(d, s, Drain(accepted), t) && s.log != [] && accepted != [] && !s.paused
    requires !ListOf(s, view).sort.active
    ensures ListOf(t, view).rows == ListOf(s, view).rows + added
    ensures NewRows(d, s.filter, view, ListOf(s, view).floor, t.log, |s.log|, added)
  {
    hide VisibleFrom, Sequenced, NewestFew, SortOf, NewRows;
    added := VisibleFrom(d, s.filter, view, ListOf(s, view).floor, t.log, |s.log|);
    VisibleFromIs(d, s.filter, view, ListOf(s, view).floor, t.log, |s.log|);
  }
}
