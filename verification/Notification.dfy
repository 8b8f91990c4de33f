/** The notification protocol between any number of producers and the GUI thread: the critical
    sections of push_event and pop_event, the PostMessageW that follows a push outside the lock,
    and the window procedure that drains on a message, interleaved freely. */
module Notification {
  import opened WideStrings
  import opened Events
  import opened QueueModel

  type Producer = nat

  /** A queued value with the thread that pushed it. */
  datatype Item = Item(producer: Producer, event: Event)

  /** `posting`: producers between their push and their post.  `messages`: notifications waiting in
      the window's message queue.  `draining`: the GUI thread is inside drain_events.
      `failedPosts`: posts that did not arrive.  `pushed`, `popped`: what happened so far. */
  datatype State = State(
    queue: QueueState<Item>,
    posting: set<Producer>,
    messages: nat,
    draining: bool,
    failedPosts: nat,
    pushed: seq<Item>,
    popped: seq<Item>)

  const START := State(QueueState([], false), {}, 0, false, 0, [], [])

  datatype Action =
    | Push(producer: Producer, event: Event)
    | Post(poster: Producer, delivered: bool)
    | Dispatch
    | Pop

  predicate Enabled(s: State, a: Action) {
    match a
    case Push(p, _) => p !in s.posting
    case Post(p, _) => p in s.posting
    case Dispatch => s.messages > 0 && !s.draining
    case Pop => s.draining
  }

  function Apply(s: State, a: Action): State
    requires Enabled(s, a)
  {
    match a
    case Push(p, e) =>
      s.(queue := Pushed(s.queue, Item(p, e)),
         posting := if s.queue.pending then s.posting else s.posting + {p},
         pushed := s.pushed + [Item(p, e)])
    case Post(p, delivered) =>
      if delivered then s.(posting := s.posting - {p}, messages := s.messages + 1)
      else s.(posting := s.posting - {p}, failedPosts := s.failedPosts + 1)
    case Dispatch => s.(messages := s.messages - 1, draining := true)
    case Pop =>
      match Front(s.queue)
      case Some(item) => s.(queue := Popped(s.queue), popped := s.popped + [item])
      case None => s.(queue := Popped(s.queue), draining := false)
  }

  /** The state after these steps, if each is possible when its turn comes. */
  function Execute(s: State, actions: seq<Action>): Option<State>
    decreases |actions|
  {
    if actions == [] then Some(s)
    else if !Enabled(s, actions[0]) then None
    else Execute(Apply(s, actions[0]), actions[1..])
  }

  ghost predicate Reachable(s: State) {
    exists actions :: Execute(START, actions) == Some(s)
  }

  /** Whoever must act on a raised `pending` flag. */
  function Tokens(s: State): nat {
    |s.posting| + s.messages + if s.draining then 1 else 0
  }

  ghost predicate Invariant(s: State) {
    && Tokens(s) + s.failedPosts == (if s.queue.pending then 1 else 0)
    && (s.queue.contents != [] ==> s.queue.pending)
    && s.pushed == s.popped + s.queue.contents
  }

  lemma ApplyKeepsInvariant(s: State, a: Action)
    requires Invariant(s) && Enabled(s, a)
    ensures Invariant(Apply(s, a))
  {
  }

  lemma {:induction false} ExecuteKeepsInvariant(s: State, actions: seq<Action>)
    requires Invariant(s)
    ensures Execute(s, actions).Some? ==> Invariant(Execute(s, actions).value)
    decreases |actions|
  {
    if actions == [] || !Enabled(s, actions[0]) {
    } else {
      ApplyKeepsInvariant(s, actions[0]);
      ExecuteKeepsInvariant(Apply(s, actions[0]), actions[1..]);
    }
  }

  lemma ReachableInvariant(s: State)
    requires Reachable(s)
    ensures Invariant(s)
  {
    var actions :| Execute(START, actions) == Some(s);
    ExecuteKeepsInvariant(START, actions);
  }

  /** At most one notification is ever outstanding, and the flag means exactly that one token
      exists - if and only if no post was lost so far. */
  lemma PendingIsOneToken(s: State)
    requires Reachable(s)
    ensures Tokens(s) <= 1
    ensures (s.queue.pending <==> Tokens(s) == 1) <==> s.failedPosts == 0
  {
    ReachableInvariant(s);
  }

  /** A step of draining what is already queued: no push, and no post lost. */
  predicate Settling(a: Action) {
    !a.Push? && (a.Post? ==> a.delivered)
  }

  function Measure(s: State): nat {
    3 * |s.posting| + 2 * s.messages + (if s.draining then 1 else 0) + |s.queue.contents|
  }

  lemma SomeoneActs(s: State)
    requires Invariant(s) && s.failedPosts == 0 && Measure(s) > 0
    ensures exists a :: Settling(a) && Enabled(s, a)
  {
    if s.draining {
      assert Settling(Pop) && Enabled(s, Pop);
    } else if s.messages > 0 {
      assert Settling(Dispatch) && Enabled(s, Dispatch);
    } else {
      assert s.posting != {};
      var p :| p in s.posting;
      assert Settling(Post(p, true)) && Enabled(s, Post(p, true));
    }
  }

  /** No lost wakeup: while values are queued, somebody is still bound to drain them. */
  lemma NoLostWakeup(s: State)
    requires Reachable(s) && s.failedPosts == 0 && s.queue.contents != []
    ensures s.queue.pending && Tokens(s) == 1
    ensures exists a :: Settling(a) && Enabled(s, a)
  {
    ReachableInvariant(s);
    SomeoneActs(s);
  }

  /** One lost post - no window, or PostMessageW failing - silences the queue for good: whatever
      happens later, nothing more is popped. */
  lemma {:induction false} LostPostStarves(s: State, actions: seq<Action>)
    requires Invariant(s) && s.failedPosts > 0
    ensures Execute(s, actions).Some? ==> Execute(s, actions).value.popped == s.popped
    decreases |actions|
  {
    if actions == [] || !Enabled(s, actions[0]) {
    } else {
      ApplyKeepsInvariant(s, actions[0]);
      LostPostStarves(Apply(s, actions[0]), actions[1..]);
    }
  }

  /** Such a state is two steps away: the first push of a session whose post fails. */
  lemma PostCanBeLost(e: Event)
    ensures var s := Execute(START, [Push(0, e), Post(0, false)]);
      && s.Some? && Reachable(s.value) && Invariant(s.value) && s.value.failedPosts > 0
      && s.value.queue.contents == [Item(0, e)] && Tokens(s.value) == 0
  {
    var actions := [Push(0, e), Post(0, false)];
    var one := Apply(START, actions[0]);
    assert one.posting == {0} && Enabled(one, Post(0, false));
    var two := Apply(one, Post(0, false));
    assert actions[1..] == [Post(0, false)] && actions[1..][1..] == [];
    assert Execute(one, actions[1..]) == Execute(two, actions[1..][1..]) == Some(two);
    assert Execute(START, actions) == Some(two);
    ReachableInvariant(two);
  }

  // ---- once pushes stop ----

  lemma SettlingStep(s: State, a: Action)
    requires Enabled(s, a) && Settling(a)
    ensures Measure(Apply(s, a)) == Measure(s) - 1
    ensures Apply(s, a).failedPosts == s.failedPosts && Apply(s, a).pushed == s.pushed
  {
  }

  lemma {:induction false} SettlingRun(s: State, actions: seq<Action>)
    requires forall i :: 0 <= i < |actions| ==> Settling(actions[i])
    ensures var t := Execute(s, actions);
      t.Some? ==>
        && Measure(t.value) == Measure(s) - |actions|
        && t.value.failedPosts == s.failedPosts && t.value.pushed == s.pushed
    decreases |actions|
  {
    if actions == [] || !Enabled(s, actions[0]) {
    } else {
      SettlingStep(s, actions[0]);
      SettlingRun(Apply(s, actions[0]), actions[1..]);
    }
  }

  /** Once pushes stop and posts arrive, every schedule ends after exactly Measure(s) steps, and it
      ends with the queue empty, the flag down and every pushed value popped in push order. */
  lemma QueueSettles(s: State, actions: seq<Action>)
    requires Reachable(s) && s.failedPosts == 0
    requires forall i :: 0 <= i < |actions| ==> Settling(actions[i])
    ensures var t := Execute(s, actions);
      t.Some? ==>
        && |actions| <= Measure(s)
        && ((forall a :: Settling(a) ==> !Enabled(t.value, a)) <==> |actions| == Measure(s))
        && (|actions| == Measure(s) ==>
          t.value.queue == QueueState([], false) && t.value.popped == s.pushed)
  {
    SettlingRun(s, actions);
    ReachableInvariant(s);
    ExecuteKeepsInvariant(s, actions);
    var r := Execute(s, actions);
    if r.Some? {
      var t := r.value;
      if Measure(t) > 0 {
        SomeoneActs(t);
      } else {
        assert t.posting == {} && t.queue.contents == [];
        assert t.popped == t.popped + t.queue.contents;
        assert forall a :: Settling(a) ==> !Enabled(t, a);
      }
    }
  }

  // ---- order ----

  /** The events of one producer, in order. */
  function By(p: Producer, items: seq<Item>): seq<Event> {
    if items == [] then []
    else
      var (earlier, last) := (By(p, items[..|items| - 1]), items[|items| - 1]);
      if last.producer == p then earlier + [last.event] else earlier
  }

  lemma {:induction false} ByConcat(p: Producer, a: seq<Item>, b: seq<Item>)
    ensures By(p, a + b) == By(p, a) + By(p, b)
  {
    if b == [] {
      assert a + b == a;
    } else {
      ByConcat(p, a, b[..|b| - 1]);
      assert (a + b)[..|a + b| - 1] == a + b[..|b| - 1];
    }
  }

  /** Every pushed value is popped at most once, in lock order, and none is skipped; each producer's
      own order is kept, whatever was lost or interleaved. */
  lemma FirstInFirstOut(s: State, p: Producer)
    requires Reachable(s)
    ensures s.popped + s.queue.contents == s.pushed
    ensures By(p, s.popped) + By(p, s.queue.contents) == By(p, s.pushed)
  {
    ReachableInvariant(s);
    ByConcat(p, s.popped, s.queue.contents);
  }
}
