/** The comparator behind the sortable lists (compare_event_items and its helpers in src/gui.c). */
module EventOrder {
  import opened WideStrings
  import opened Events
  import opened Sorting

  datatype ListView = TimelineView | NetworkView | AlertsView

  datatype SortState = SortState(column: int, ascending: bool, active: bool)

  /** `upper` folds as CompareStringOrdinal does; `convert` is SystemTimeToFileTime. */
  datatype Collation = Collation(upper: Unit -> Unit, convert: SystemTime -> Option<Qword>)

  const TIME_COLUMN := 0

  function SeverityRank(s: Severity): nat {
    match s
    case NoSeverity => 0
    case Info => 1
    case Low => 2
    case Medium => 3
    case High => 4
  }

  function CompareText(c: Collation, left: Wide, right: Wide): int { CompareOrdinal(c.upper, left, right) }

  /** compare_event_times: the times decide only when both convert and differ. */
  function CompareTimes(c: Collation, left: Event, right: Event): int {
    match (c.convert(left.timestamp), c.convert(right.timestamp))
    case (Some(l), Some(r)) =>
      if CompareNumbers(l, r) != 0 then CompareNumbers(l, r) else CompareNumbers(left.sequence, right.sequence)
    case _ => CompareNumbers(left.sequence, right.sequence)
  }

  function CompareEndpoints(c: Collation, leftAddress: Wide, leftPort: Word, rightAddress: Wide, rightPort: Word): int {
    var t := CompareText(c, leftAddress, rightAddress);
    if t != 0 then t else CompareNumbers(leftPort, rightPort)
  }

  /** The column's own comparison; 0 for a column the view does not have. */
  function CompareColumn(c: Collation, view: ListView, column: int, left: Event, right: Event): int {
    match view
    case TimelineView =>
      if column == 0 then CompareTimes(c, left, right)
      else if column == 1 then CompareText(c, EventCategoryName(left.kind), EventCategoryName(right.kind))
      else if column == 2 then CompareText(c, left.processName, right.processName)
      else if column == 3 then CompareNumbers(left.process.pid, right.process.pid)
      else if column == 4 then CompareText(c, left.details, right.details)
      else 0
    case NetworkView =>
      if column == 0 then CompareTimes(c, left, right)
      else if column == 1 then CompareText(c, left.processName, right.processName)
      else if column == 2 then CompareNumbers(left.process.pid, right.process.pid)
      else if column == 3 then CompareText(c, left.protocol, right.protocol)
      else if column == 4 then
        CompareEndpoints(c, left.localAddress, left.localPort, right.localAddress, right.localPort)
      else if column == 5 then
        CompareEndpoints(c, left.remoteAddress, left.remotePort, right.remoteAddress, right.remotePort)
      else if column == 6 then CompareText(c, left.networkState, right.networkState)
      else 0
    case AlertsView =>
      if column == 0 then CompareTimes(c, left, right)
      else if column == 1 then CompareNumbers(SeverityRank(left.severity), SeverityRank(right.severity))
      else if column == 2 then CompareText(c, left.ruleName, right.ruleName)
      else if column == 3 then CompareText(c, left.processName, right.processName)
      else if column == 4 then CompareText(c, left.details, right.details)
      else 0
  }

  function CompareEvents(c: Collation, view: ListView, sort: SortState, left: Event, right: Event): int {
    var r := CompareColumn(c, view, sort.column, left, right);
    var result := if r == 0 then CompareNumbers(left.sequence, right.sequence) else r;
    if sort.ascending then result else -result
  }

  /** compare_event_items on two row parameters: indices into the log. */
  function CompareItems(c: Collation, view: ListView, sort: SortState, log: seq<Event>, left: nat, right: nat): int {
    if left >= |log| || right >= |log| then 0 else CompareEvents(c, view, sort, log[left], log[right])
  }

  function ItemOrder(c: Collation, view: ListView, sort: SortState, log: seq<Event>): (nat, nat) -> int {
    (i: nat, j: nat) => CompareItems(c, view, sort, log, i, j)
  }

  // ---- when the comparator is an order ----

  /** An event whose time does not convert never separates two that convert in the wrong order. */
  ghost predicate TimesAgree(c: Collation, log: seq<Event>) {
    forall i, j, k | 0 <= i < |log| && 0 <= j < |log| && 0 <= k < |log| :: Agree(c, log[i], log[j], log[k])
  }

  predicate Agree(c: Collation, x: Event, y: Event, z: Event) {
    var (tx, tz) := (c.convert(x.timestamp), c.convert(z.timestamp));
    tx.Some? && c.convert(y.timestamp).None? && tz.Some? && x.sequence < y.sequence < z.sequence ==>
      tx.value <= tz.value
  }

  lemma TimesReflect(c: Collation, x: Event, y: Event)
    ensures CompareTimes(c, y, x) == -CompareTimes(c, x, y)
    ensures CompareTimes(c, x, y) == 0 ==> x.sequence == y.sequence
  {
  }

  /** Sequence numbers identify the events of a log. */
  ghost predicate Identified(log: seq<Event>) {
    forall i, j :: 0 <= i < j < |log| ==> log[i].sequence != log[j].sequence
  }

  ghost predicate TimesOrdered(c: Collation, log: seq<Event>) {
    forall i, j, k | 0 <= i < |log| && 0 <= j < |log| && 0 <= k < |log| ::
      CompareTimes(c, log[i], log[j]) <= 0 && CompareTimes(c, log[j], log[k]) <= 0 ==>
        CompareTimes(c, log[i], log[k]) <= 0
  }

  /** The time column orders a log if and only if no event without a convertible time lies between
      two events whose times run backwards.  In particular it does when all times convert. */
  lemma TimeColumnOrderedIff(c: Collation, log: seq<Event>)
    requires Identified(log)
    ensures TimesOrdered(c, log) <==> TimesAgree(c, log)
  {
  }

  lemma AllConvertAgree(c: Collation, log: seq<Event>)
    requires forall i :: 0 <= i < |log| ==> c.convert(log[i].timestamp).Some?
    ensures TimesAgree(c, log)
  {
  }

  /** A conversion in the manner of SystemTimeToFileTime: it rejects fields that no calendar has and
      keeps the order of the times it accepts. */
  function Calendar(t: SystemTime): Option<Qword> {
    if 1601 <= t.year <= 30827 && 1 <= t.month <= 12 && 1 <= t.day <= 31 && t.hour < 24 && t.minute < 60 &&
       t.second < 60 && t.milliseconds < 1000 then
      var seconds := ((((t.year * 12 + t.month) * 31 + t.day) * 24 + t.hour) * 60 + t.minute) * 60 + t.second;
      Some(seconds * 1000 + t.milliseconds)
    else None
  }

  /** Noon of 15 May 2024, and some seconds. */
  function Noon(seconds: Word): SystemTime { SystemTime(2024, 5, 15, 12, 0, seconds, 0) }

  lemma NoonConverts(seconds: Word)
    requires seconds < 60
    ensures Calendar(Noon(seconds)) == Some(Calendar(Noon(0)).value + 1000 * seconds)
  {
  }

  /** A log on which the time column is no order: each of the three events precedes the next, the
      second having no time at all. */
  lemma UnconvertibleTimeCycles(upper: Unit -> Unit)
    ensures var c := Collation(upper, Calendar);
      var x := NO_EVENT.(sequence := 1, timestamp := Noon(9));
      var y := NO_EVENT.(sequence := 2);
      var z := NO_EVENT.(sequence := 3, timestamp := Noon(4));
      && CompareTimes(c, x, y) < 0 && CompareTimes(c, y, z) < 0 && CompareTimes(c, z, x) < 0
      && !TimesAgree(c, [x, y, z])
  {
    var c := Collation(upper, Calendar);
    var x := NO_EVENT.(sequence := 1, timestamp := Noon(9));
    var y := NO_EVENT.(sequence := 2);
    var z := NO_EVENT.(sequence := 3, timestamp := Noon(4));
    var log := [x, y, z];
    NoonConverts(9);
    NoonConverts(4);
    assert !Agree(c, log[0], log[1], log[2]);
  }

  // ---- every column ----

  lemma ColumnReflects(c: Collation, view: ListView, column: int, x: Event, y: Event)
    ensures CompareColumn(c, view, column, y, x) == -CompareColumn(c, view, column, x, y)
  {
    hide CompareOrdinal, EventCategoryName;
    TimesReflect(c, x, y);
    OrdinalReflects(c.upper, x.processName, y.processName);
    OrdinalReflects(c.upper, x.details, y.details);
    OrdinalReflects(c.upper, x.protocol, y.protocol);
    OrdinalReflects(c.upper, x.networkState, y.networkState);
    OrdinalReflects(c.upper, x.ruleName, y.ruleName);
    OrdinalReflects(c.upper, x.localAddress, y.localAddress);
    OrdinalReflects(c.upper, x.remoteAddress, y.remoteAddress);
    OrdinalReflects(c.upper, EventCategoryName(x.kind), EventCategoryName(y.kind));
  }

  lemma TextTransitive(c: Collation, x: Wide, y: Wide, z: Wide)
    ensures CompareText(c, x, y) <= 0 && CompareText(c, y, z) <= 0 ==> CompareText(c, x, z) <= 0
  {
    hide CompareOrdinal;
    if CompareText(c, x, y) <= 0 && CompareText(c, y, z) <= 0 {
      OrdinalTransitive(c.upper, x, y, z);
    }
  }

  lemma EndpointsTransitive(c: Collation, x: Wide, xp: Word, y: Wide, yp: Word, z: Wide, zp: Word)
    ensures CompareEndpoints(c, x, xp, y, yp) <= 0 && CompareEndpoints(c, y, yp, z, zp) <= 0 ==>
      CompareEndpoints(c, x, xp, z, zp) <= 0
  {
    hide CompareOrdinal;
    TextTransitive(c, x, y, z);
    TextTransitive(c, z, x, y);
    TextTransitive(c, y, z, x);
    OrdinalReflects(c.upper, x, y);
    OrdinalReflects(c.upper, y, z);
    OrdinalReflects(c.upper, x, z);
  }

  lemma ColumnTransitive(c: Collation, view: ListView, column: int, x: Event, y: Event, z: Event)
    requires column != TIME_COLUMN
    ensures CompareColumn(c, view, column, x, y) <= 0 && CompareColumn(c, view, column, y, z) <= 0 ==>
      CompareColumn(c, view, column, x, z) <= 0
  {
    hide CompareText, CompareEndpoints, CompareTimes, EventCategoryName;
    TextTransitive(c, x.processName, y.processName, z.processName);
    TextTransitive(c, x.details, y.details, z.details);
    TextTransitive(c, x.protocol, y.protocol, z.protocol);
    TextTransitive(c, x.networkState, y.networkState, z.networkState);
    TextTransitive(c, x.ruleName, y.ruleName, z.ruleName);
    TextTransitive(c, EventCategoryName(x.kind), EventCategoryName(y.kind), EventCategoryName(z.kind));
    EndpointsTransitive(c, x.localAddress, x.localPort, y.localAddress, y.localPort, z.localAddress, z.localPort);
    EndpointsTransitive(c, x.remoteAddress, x.remotePort, y.remoteAddress, y.remotePort, z.remoteAddress, z.remotePort);
  }

  /** The condition under which a view's comparator orders a log. */
  ghost predicate Sortable(c: Collation, sort: SortState, log: seq<Event>) {
    Identified(log) && (sort.column == TIME_COLUMN ==> TimesAgree(c, log))
  }

  /** With a total column order and distinct sequence numbers, the comparator is a strict total
      order: total, transitive, and 0 only between an event and itself. */
  lemma EventsOrdered(c: Collation, view: ListView, sort: SortState, log: seq<Event>, i: nat, j: nat, k: nat)
    requires Sortable(c, sort, log) && i < |log| && j < |log| && k < |log|
    ensures var f := ItemOrder(c, view, sort, log);
      && f(j, i) == -f(i, j)
      && (f(i, j) == 0 <==> i == j)
      && (f(i, j) <= 0 && f(j, k) <= 0 ==> f(i, k) <= 0)
  {
    hide CompareColumn, CompareTimes, TimesAgree;
    var column := sort.column;
    ColumnReflects(c, view, column, log[i], log[j]);
    ColumnReflects(c, view, column, log[j], log[k]);
    ColumnReflects(c, view, column, log[i], log[k]);
    ColumnReflects(c, view, column, log[i], log[i]);
    if column == TIME_COLUMN {
      TimeTriple(c, view, log, i, j, k);
      TimeTriple(c, view, log, k, j, i);
      TimeTriple(c, view, log, j, k, i);
      TimeTriple(c, view, log, i, k, j);
    } else {
      ColumnTransitive(c, view, column, log[i], log[j], log[k]);
      ColumnTransitive(c, view, column, log[j], log[k], log[i]);
      ColumnTransitive(c, view, column, log[k], log[i], log[j]);
      ColumnTransitive(c, view, column, log[k], log[j], log[i]);
      ColumnTransitive(c, view, column, log[j], log[i], log[k]);
      ColumnTransitive(c, view, column, log[i], log[k], log[j]);
    }
  }

  lemma TimeTriple(c: Collation, view: ListView, log: seq<Event>, i: nat, j: nat, k: nat)
    requires Identified(log) && TimesAgree(c, log) && i < |log| && j < |log| && k < |log|
    ensures var f := (x: Event, y: Event) => CompareColumn(c, view, TIME_COLUMN, x, y);
      && (f(log[i], log[j]) <= 0 && f(log[j], log[k]) <= 0 ==> f(log[i], log[k]) <= 0)
      && (f(log[i], log[j]) == 0 ==> i == j)
  {
  }

  /** The rows of a list: distinct indices of logged events. */
  ghost predicate RowsOf(log: seq<Event>, rows: seq<nat>) {
    forall i :: 0 <= i < |rows| ==> rows[i] < |log|
  }

  lemma RowsOrdered(c: Collation, view: ListView, sort: SortState, log: seq<Event>, rows: seq<nat>)
    requires Sortable(c, sort, log) && RowsOf(log, rows)
    ensures Preorders(ItemOrder(c, view, sort, log), rows) && Strict(ItemOrder(c, view, sort, log), rows)
  {
    hide CompareItems, Sortable;
    forall i: nat, j: nat, k: nat | i < |log| && j < |log| && k < |log|
      ensures var f := ItemOrder(c, view, sort, log);
        && f(j, i) == -f(i, j) && (f(i, j) == 0 <==> i == j)
        && (f(i, j) <= 0 && f(j, k) <= 0 ==> f(i, k) <= 0)
    {
      EventsOrdered(c, view, sort, log, i, j, k);
    }
  }

  /** So the sorted list is determined by the rows alone, whatever order they were inserted in and
      whatever sorting algorithm the list view uses. */
  lemma SortedRowsUnique(c: Collation, view: ListView, sort: SortState, log: seq<Event>,
                         rows: seq<nat>, other: seq<nat>, x: seq<nat>, y: seq<nat>)
    requires Sortable(c, sort, log) && RowsOf(log, rows) && multiset(rows) == multiset(other)
    requires SortOf(ItemOrder(c, view, sort, log), rows, x) && SortOf(ItemOrder(c, view, sort, log), other, y)
    ensures x == y && Sorted(ItemOrder(c, view, sort, log), x)
  {
    hide ItemOrder, Sortable, Preorders, Strict, Sorted;
    SameMembers(rows, other);
    SameMembers(rows, x);
    MembersRows(log, rows, other);
    MembersRows(log, rows, x);
    RowsOrdered(c, view, sort, log, rows);
    RowsOrdered(c, view, sort, log, other);
    RowsOrdered(c, view, sort, log, x);
    SortedUnique(ItemOrder(c, view, sort, log), x, y);
  }

  lemma MembersRows(log: seq<Event>, rows: seq<nat>, other: seq<nat>)
    requires RowsOf(log, rows) && forall x :: x in rows <==> x in other
    ensures RowsOf(log, other)
  {
    forall i | 0 <= i < |other| ensures other[i] < |log| {
      assert other[i] in rows;
    }
  }
}
