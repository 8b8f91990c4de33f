/** What draining the queue does to the store: the calls of event_store_add that drain_events makes
    (src/gui.c), the log they leave, and how drains compose. */
module Draining {
  import opened WideStrings
  import opened Events
  import opened StoreModel
  import opened Detection
  import opened Reconciliation

  /** What realloc answers during the call `j` made for the popped event `k`; call 0 adds the event
      itself, call j > 0 its alert number j. */
  type Allocator = (nat, nat) -> (bool, bool)

  function InputOf(e: Event, allocate: Allocator, k: nat, j: nat): Input {
    Input(e, allocate(k, j).0, allocate(k, j).1)
  }

  /** The store after a series of calls. */
  function Fold(s: StoreState, inputs: seq<Input>): StoreState {
    if inputs == [] then s
    else AddInput(Fold(s, inputs[..|inputs| - 1]), inputs[|inputs| - 1]).state
  }

  lemma {:induction false} FoldAppend(s: StoreState, a: seq<Input>, b: seq<Input>)
    ensures Fold(s, a + b) == Fold(Fold(s, a), b)
  {
    hide AddInput;
    if b == [] {
      assert a + b == a;
    } else {
      assert (a + b)[..|a + b| - 1] == a + b[..|b| - 1];
      FoldAppend(s, a, b[..|b| - 1]);
    }
  }

  lemma {:induction false} RunIsFold(inputs: seq<Input>)
    ensures Run(inputs) == Fold(EMPTY_STORE, inputs)
  {
    hide AddInput;
    if inputs == [] {
    } else {
      RunIsFold(inputs[..|inputs| - 1]);
    }
  }

  ghost function AlertInputs(alerts: seq<Event>, allocate: Allocator, k: nat, n: nat): seq<Input>
    requires n <= |alerts|
  {
    if n == 0 then [] else AlertInputs(alerts, allocate, k, n - 1) + [InputOf(alerts[n - 1], allocate, k, n)]
  }

  /** The calls for one popped event: the event, and its alerts once it was accepted. */
  ghost function EventInputs(locale: Locale, s: StoreState, e: Event, allocate: Allocator, k: nat): seq<Input> {
    var first := InputOf(e, allocate, k, 0);
    var added := AddInput(s, first);
    if !added.accepted then [first]
    else
      var alerts := Alerts(locale, added.event);
      [first] + AlertInputs(alerts, allocate, k, |alerts|)
  }

  /** All calls of one drain that pops `queue` in order. */
  ghost function DrainInputs(locale: Locale, s: StoreState, queue: seq<Event>, allocate: Allocator): seq<Input> {
    if queue == [] then []
    else
      var n := |queue| - 1;
      var before := DrainInputs(locale, s, queue[..n], allocate);
      before + EventInputs(locale, Fold(s, before), queue[n], allocate, n)
  }

  // ---- pushes during a drain ----

  /** Everything one drain pops, in order: `waiting` was pushed when `k` values had been popped, and other
      threads push `arrivals[i]` just before pop number i.  The drain ends when a pop finds nothing. */
  function PoppedInAll(waiting: seq<Event>, arrivals: seq<seq<Event>>, k: nat): (all: seq<Event>)
    ensures waiting <= all
    decreases |arrivals| - k
  {
    if k >= |arrivals| then waiting
    else
      var now := waiting + arrivals[k];
      if k >= |now| then now else PoppedInAll(now, arrivals, k + 1)
  }

  // ---- alerts leave the processes alone ----

  lemma {:induction false} AlertsNoProcess(inputs: seq<Input>, alerts: seq<Event>, allocate: Allocator, k: nat, n: nat)
    requires n <= |alerts| && forall i :: 0 <= i < n ==> alerts[i].kind.Alert?
    ensures ProcessEvents(inputs + AlertInputs(alerts, allocate, k, n)) == ProcessEvents(inputs)
  {
    hide ProcessEvents;
    if n == 0 {
      assert inputs + [] == inputs;
    } else {
      AlertsNoProcess(inputs, alerts, allocate, k, n - 1);
      ProcessEventsAppend(inputs + AlertInputs(alerts, allocate, k, n - 1), InputOf(alerts[n - 1], allocate, k, n));
      assert inputs + (AlertInputs(alerts, allocate, k, n - 1) + [InputOf(alerts[n - 1], allocate, k, n)]) ==
        inputs + AlertInputs(alerts, allocate, k, n - 1) + [InputOf(alerts[n - 1], allocate, k, n)];
    }
  }

  /** The process events a drain hands to the store are exactly those queued, in order. */
  lemma {:induction false} DrainFeedsQueue(locale: Locale, s: StoreState, queue: seq<Event>, allocate: Allocator)
    ensures ProcessEvents(DrainInputs(locale, s, queue, allocate)) == OnlyProcessEvents(queue)
  {
    hide ProcessEvents, Alerts, AddInput, Fold, AlertInputs, IsProcessEvent;
    if queue == [] {
      NoInputs();
    } else {
      var n := |queue| - 1;
      var before := DrainInputs(locale, s, queue[..n], allocate);
      DrainFeedsQueue(locale, s, queue[..n], allocate);
      var first := InputOf(queue[n], allocate, n, 0);
      ProcessEventsAppend(before, first);
      var added := AddInput(Fold(s, before), first);
      var alerts := Alerts(locale, added.event);
      AlertsFit(locale, added.event);
      AlertsNoProcess(before + [first], alerts, allocate, n, |alerts|);
      assert before + ([first] + AlertInputs(alerts, allocate, n, |alerts|)) ==
        before + [first] + AlertInputs(alerts, allocate, n, |alerts|);
    }
  }

  // ---- the log after a drain ----

  function Unnumbered(log: seq<Event>): (r: seq<Event>)
    ensures |r| == |log|
  {
    seq(|log|, i requires 0 <= i < |log| => log[i].(sequence := 0))
  }

  /** Every call stored its event or merged it: none returned FALSE. */
  ghost predicate AllOk(s: StoreState, inputs: seq<Input>) {
    forall i :: 0 <= i < |inputs| ==> AddInput(Fold(s, inputs[..i]), inputs[i]).ok
  }

  lemma AllOkSplit(s: StoreState, a: seq<Input>, b: seq<Input>)
    requires AllOk(s, a + b)
    ensures AllOk(s, a) && AllOk(Fold(s, a), b)
  {
    hide AddInput, Fold;
    forall i | 0 <= i < |a| ensures AddInput(Fold(s, a[..i]), a[i]).ok {
      assert (a + b)[..i] == a[..i] && (a + b)[i] == a[i];
    }
    forall i | 0 <= i < |b| ensures AddInput(Fold(Fold(s, a), b[..i]), b[i]).ok {
      assert (a + b)[..|a| + i] == a + b[..i] && (a + b)[|a| + i] == b[i];
      FoldAppend(s, a, b[..i]);
    }
  }

  lemma AllOkLast(s: StoreState, a: seq<Input>, x: Input)
    requires AllOk(s, a + [x])
    ensures AllOk(s, a) && AddInput(Fold(s, a), x).ok
  {
    hide AddInput, Fold;
    AllOkSplit(s, a, [x]);
    assert [x][..0] == [];
    FoldNothing(Fold(s, a));
  }

  lemma FoldNothing(s: StoreState)
    ensures Fold(s, []) == s
  {
  }

  lemma FoldOne(s: StoreState, x: Input)
    ensures Fold(s, [x]) == AddInput(s, x).state
  {
    hide AddInput;
  }

  /** What one call does to the log, numbers aside. */
  lemma AddLogs(s: StoreState, x: Input)
    ensures var r := AddInput(s, x);
      && Unnumbered(r.state.events) == Unnumbered(s.events) + (if r.accepted then [x.event.(sequence := 0)] else [])
      && (r.ok && x.event.kind.Alert? ==> r.accepted)
      && r.event.(sequence := 0) == x.event.(sequence := 0)
  {
    hide FindProcess, ReserveRecord, ReserveEvent, NewRecord, Updated;
  }

  lemma {:induction false} AlertsLogged(s: StoreState, alerts: seq<Event>, allocate: Allocator, k: nat, n: nat)
    requires n <= |alerts| && AllOk(s, AlertInputs(alerts, allocate, k, n))
    requires forall i :: 0 <= i < |alerts| ==> alerts[i].kind.Alert?
    ensures Unnumbered(Fold(s, AlertInputs(alerts, allocate, k, n)).events) ==
      Unnumbered(s.events) + Unnumbered(alerts[..n])
  {
    hide AddInput, Fold, AllOk;
    if n == 0 {
      FoldNothing(s);
    } else {
      var before := AlertInputs(alerts, allocate, k, n - 1);
      var x := InputOf(alerts[n - 1], allocate, k, n);
      AllOkLast(s, before, x);
      AlertsLogged(s, alerts, allocate, k, n - 1);
      FoldAppend(s, before, [x]);
      FoldOne(Fold(s, before), x);
      AddLogs(Fold(s, before), x);
      assert alerts[..n] == alerts[..n - 1] + [alerts[n - 1]];
      assert Unnumbered(alerts[..n]) == Unnumbered(alerts[..n - 1]) + [alerts[n - 1].(sequence := 0)];
    }
  }

  lemma RulesIgnoreNumbers(locale: Locale, e: Event)
    ensures var u := e.(sequence := 0);
      && (OfficeSpawnedScript(locale, u) <==> OfficeSpawnedScript(locale, e))
      && (RunsFromTemp(locale, u) <==> RunsFromTemp(locale, e))
      && (ScriptOwnsConnection(locale, u) <==> ScriptOwnsConnection(locale, e))
      && OfficeAlert(u) == OfficeAlert(e).(sequence := 0)
      && TempAlert(u) == TempAlert(e).(sequence := 0)
      && ConnectionAlert(u) == ConnectionAlert(e).(sequence := 0)
  {
    hide NamedIn, ContainsFolded, OfficeNames, InterpreterNames, Truncated, W;
  }

  /** An alert repeats its event apart from the fields it sets. */
  lemma AlertsIgnoreNumbers(locale: Locale, e: Event)
    ensures Unnumbered(Alerts(locale, e)) == Alerts(locale, e.(sequence := 0))
  {
    hide OfficeSpawnedScript, RunsFromTemp, ScriptOwnsConnection, OfficeAlert, TempAlert, ConnectionAlert;
    RulesIgnoreNumbers(locale, e);
  }

  /** An accepted event followed by its alerts. */
  ghost function WithAlerts(locale: Locale, e: Event): seq<Event> {
    [e.(sequence := 0)] + Alerts(locale, e.(sequence := 0))
  }

  /** The queued events the store accepts as new during a drain. */
  ghost function Accepted(locale: Locale, s: StoreState, queue: seq<Event>, allocate: Allocator): seq<Event> {
    if queue == [] then []
    else
      var n := |queue| - 1;
      var before := DrainInputs(locale, s, queue[..n], allocate);
      var earlier := Accepted(locale, s, queue[..n], allocate);
      if AddInput(Fold(s, before), InputOf(queue[n], allocate, n, 0)).accepted then earlier + [queue[n]] else earlier
  }

  ghost function AllWithAlerts(locale: Locale, events: seq<Event>): seq<Event> {
    if events == [] then []
    else AllWithAlerts(locale, events[..|events| - 1]) + WithAlerts(locale, events[|events| - 1])
  }

  lemma EventLogged(locale: Locale, s: StoreState, e: Event, allocate: Allocator, k: nat)
    requires AllOk(s, EventInputs(locale, s, e, allocate, k))
    ensures Unnumbered(Fold(s, EventInputs(locale, s, e, allocate, k)).events) ==
      Unnumbered(s.events) +
      if AddInput(s, InputOf(e, allocate, k, 0)).accepted then WithAlerts(locale, e) else []
  {
    hide AddInput, Fold, AllOk, Alerts, AlertInputs;
    var first := InputOf(e, allocate, k, 0);
    var added := AddInput(s, first);
    FoldOne(s, first);
    AddLogs(s, first);
    if added.accepted {
      var alerts := Alerts(locale, added.event);
      var rest := AlertInputs(alerts, allocate, k, |alerts|);
      AlertsFit(locale, added.event);
      AllOkSplit(s, [first], rest);
      FoldAppend(s, [first], rest);
      AlertsLogged(added.state, alerts, allocate, k, |alerts|);
      assert alerts[..|alerts|] == alerts;
      AlertsIgnoreNumbers(locale, added.event);
    }
  }

  /** When no call fails, a drain extends the log by every accepted event, each immediately followed
      by its alerts in rule order, in the order of the queue. */
  lemma {:induction false} DrainExtendsLog(locale: Locale, s: StoreState, queue: seq<Event>, allocate: Allocator)
    requires AllOk(s, DrainInputs(locale, s, queue, allocate))
    ensures Unnumbered(Fold(s, DrainInputs(locale, s, queue, allocate)).events) ==
      Unnumbered(s.events) + AllWithAlerts(locale, Accepted(locale, s, queue, allocate))
  {
    hide AddInput, Fold, AllOk, Alerts, AlertInputs, EventInputs, WithAlerts;
    if queue == [] {
      FoldNothing(s);
    } else {
      var n := |queue| - 1;
      var before := DrainInputs(locale, s, queue[..n], allocate);
      var here := EventInputs(locale, Fold(s, before), queue[n], allocate, n);
      AllOkSplit(s, before, here);
      FoldAppend(s, before, here);
      DrainExtendsLog(locale, s, queue[..n], allocate);
      EventLogged(locale, Fold(s, before), queue[n], allocate, n);
      var earlier := Accepted(locale, s, queue[..n], allocate);
      assert (earlier + [queue[n]])[..|earlier|] == earlier;
    }
  }

  // ---- drains in a row ----

  /** The allocator of two drains in a row: `g` answers from popped event `n` on. */
  function Joined(f: Allocator, g: Allocator, n: nat): Allocator {
    (k: nat, j: nat) => if k < n then f(k, j) else g(k - n, j)
  }

  /** What the allocators answer for one popped event each. */
  ghost predicate Agree(f: Allocator, k: nat, g: Allocator, i: nat) { forall j: nat :: f(k, j) == g(i, j) }

  lemma {:induction false} AlertInputsSame(alerts: seq<Event>, f: Allocator, k: nat, g: Allocator, i: nat, n: nat)
    requires n <= |alerts| && Agree(f, k, g, i)
    ensures AlertInputs(alerts, f, k, n) == AlertInputs(alerts, g, i, n)
  {
    if n == 0 {
    } else {
      AlertInputsSame(alerts, f, k, g, i, n - 1);
    }
  }

  lemma EventInputsSame(locale: Locale, s: StoreState, e: Event, f: Allocator, k: nat, g: Allocator, i: nat)
    requires Agree(f, k, g, i)
    ensures EventInputs(locale, s, e, f, k) == EventInputs(locale, s, e, g, i)
  {
    hide AddInput, Alerts, AlertInputs;
    var added := AddInput(s, InputOf(e, f, k, 0));
    AlertInputsSame(Alerts(locale, added.event), f, k, g, i, |Alerts(locale, added.event)|);
  }

  lemma {:induction false} DrainInputsSame(locale: Locale, s: StoreState, queue: seq<Event>, f: Allocator, g: Allocator)
    requires forall k: nat :: k < |queue| ==> Agree(f, k, g, k)
    ensures DrainInputs(locale, s, queue, f) == DrainInputs(locale, s, queue, g)
  {
    hide EventInputs, Fold, Agree;
    if queue == [] {
    } else {
      var n := |queue| - 1;
      DrainInputsSame(locale, s, queue[..n], f, g);
      EventInputsSame(locale, Fold(s, DrainInputs(locale, s, queue[..n], f)), queue[n], f, n, g, n);
    }
  }

  lemma DrainOneMore(locale: Locale, s: StoreState, queue: seq<Event>, e: Event, allocate: Allocator)
    ensures var before := DrainInputs(locale, s, queue, allocate);
      DrainInputs(locale, s, queue + [e], allocate) ==
      before + EventInputs(locale, Fold(s, before), e, allocate, |queue|)
  {
    hide EventInputs, Fold;
    assert (queue + [e])[..|queue|] == queue;
  }

  /** Draining `a` and later `b` hands the store what one drain of both would: how pops are cut into
      drains, and pushes that arrive between two pops, make no difference. */
  lemma {:induction false} DrainsCompose(locale: Locale, s: StoreState, a: seq<Event>, b: seq<Event>,
                                         f: Allocator, g: Allocator)
    ensures var first := DrainInputs(locale, s, a, f);
      DrainInputs(locale, s, a + b, Joined(f, g, |a|)) == first + DrainInputs(locale, Fold(s, first), b, g)
  {
    hide EventInputs, Fold, DrainInputs;
    var h := Joined(f, g, |a|);
    var first := DrainInputs(locale, s, a, f);
    if b == [] {
      assert a + b == a;
      DrainInputsSame(locale, s, a, f, h);
      NothingToDrain(locale, Fold(s, first), g);
    } else {
      var (before, e) := (b[..|b| - 1], b[|b| - 1]);
      DrainsCompose(locale, s, a, before, f, g);
      var second := DrainInputs(locale, Fold(s, first), before, g);
      assert a + b == (a + before) + [e] && b == before + [e];
      DrainOneMore(locale, s, a + before, e, h);
      DrainOneMore(locale, Fold(s, first), before, e, g);
      FoldAppend(s, first, second);
      EventInputsSame(locale, Fold(s, first + second), e, h, |a + before|, g, |before|);
    }
  }

  lemma NothingToDrain(locale: Locale, s: StoreState, allocate: Allocator)
    ensures DrainInputs(locale, s, [], allocate) == []
  {
  }
}
