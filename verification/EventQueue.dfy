/** The event queue of src/event_queue.c.  QueueModel says what each critical section does;
    EventQueues runs it on the linked list. */
module QueueModel {
  import opened WideStrings

  /** What the lock protects: the queued values, oldest first, and notification_pending. */
  datatype QueueState<T> = QueueState(contents: seq<T>, pending: bool)

  /** The critical section of push_event; the caller must post iff `pending` was clear. */
  function Pushed<T>(q: QueueState<T>, x: T): QueueState<T> {
    QueueState(q.contents + [x], true)
  }

  /** The critical section of pop_event: only an empty queue clears `pending`. */
  function Popped<T>(q: QueueState<T>): QueueState<T> {
    if q.contents == [] then QueueState([], false) else q.(contents := q.contents[1..])
  }

  function Front<T>(q: QueueState<T>): Option<T> {
    if q.contents == [] then None else Some(q.contents[0])
  }
}

module EventQueues {
  import opened WideStrings
  import opened Events
  import opened QueueModel

  class EventNode {
    var event: Event
    var next: EventNode?

    constructor (event: Event)
      ensures this.event == event && next == null
    {
      this.event, next := event, null;
    }
  }

  class EventQueue {
    var head: EventNode?
    var tail: EventNode?
    var hasWindow: bool
    var pending: bool
    var initialized: bool

    /** The nodes from head to tail. */
    ghost var nodes: seq<EventNode>
    ghost var Repr: set<object>

    ghost predicate Valid()
      reads this, Repr
    {
      && this in Repr
      && (forall i :: 0 <= i < |nodes| ==> nodes[i] in Repr)
      && (nodes == [] ==> head == null && tail == null)
      && (nodes != [] ==> head == nodes[0] && tail == nodes[|nodes| - 1] && tail.next == null)
      && (forall i, j :: 0 <= i < |nodes| && j == i + 1 < |nodes| ==> nodes[i].next == nodes[j])
      && (forall i, j :: 0 <= i < j < |nodes| ==> nodes[i] != nodes[j])
    }

    ghost function Contents(): (c: seq<Event>)
      requires Valid()
      reads this, Repr
      ensures |c| == |nodes|
    {
      seq(|nodes|, i requires 0 <= i < |nodes| && nodes[i] in Repr reads this, Repr => nodes[i].event)
    }

    ghost function State(): QueueState<Event>
      requires Valid()
      reads this, Repr
    {
      QueueState(Contents(), pending)
    }

    constructor (hasWindow: bool)
      ensures Valid() && State() == QueueState([], false)
      ensures initialized && this.hasWindow == hasWindow && nodes == [] && fresh(Repr)
    {
      head, tail, nodes, Repr := null, null, [], {this};
      pending, initialized, this.hasWindow := false, true, hasWindow;
    }

    method SetWindow(hasWindow: bool)
      requires Valid()
      modifies this`hasWindow
      ensures Valid() && this.hasWindow == if initialized then hasWindow else old(this.hasWindow)
    {
      if initialized {
        this.hasWindow := hasWindow;
      }
    }

    /** push_event; `memory` says whether malloc succeeds, `post` whether PostMessageW is called. */
    method Push(event: Event, memory: bool) returns (ok: bool, post: bool)
      requires Valid()
      modifies Repr
      ensures Valid() && initialized == old(initialized) && hasWindow == old(hasWindow)
      ensures ok == (initialized && memory)
      ensures State() == if ok then Pushed(old(State()), event) else old(State())
      ensures post == (ok && !old(pending) && hasWindow)
      ensures fresh(Repr - old(Repr))
    {
      if !initialized || !memory {
        return false, false;
      }
      var node := new EventNode(event);
      if tail == null {
        head := node;
        tail := node;
      } else {
        tail.next := node;
        tail := node;
      }
      nodes, Repr := nodes + [node], Repr + {node};
      var shouldNotify := !pending;
      if shouldNotify {
        pending := true;
      }
      assert Contents() == old(Contents()) + [event];
      return true, shouldNotify && hasWindow;
    }

    /** pop_event: the oldest value, or nothing. */
    method Pop() returns (event: Option<Event>)
      requires Valid()
      modifies this
      ensures Valid() && initialized == old(initialized) && hasWindow == old(hasWindow)
      ensures State() == if initialized then Popped(old(State())) else old(State())
      ensures event == if initialized then Front(old(State())) else None
      ensures Repr == old(Repr)
    {
      if !initialized {
        return None;
      }
      var node := head;
      if node != null {
        head := node.next;
        if head == null {
          tail := null;
        }
        assert |nodes| > 1 ==> nodes[0].next == nodes[1];
        nodes := nodes[1..];
      } else {
        pending := false;
      }
      if node == null {
        return None;
      }
      assert Contents() == old(Contents())[1..];
      return Some(node.event);
    }

    /** event_queue_destroy: every node still queued is freed, each once; the queue is dead. */
    method Destroy() returns (ghost freed: seq<EventNode>)
      requires Valid()
      modifies this
      ensures Valid() && !initialized
      ensures old(initialized) ==> freed == old(nodes) && nodes == [] && !hasWindow && pending == old(pending)
      ensures !old(initialized) ==> freed == [] && State() == old(State())
      ensures forall i, j :: 0 <= i < j < |freed| ==> freed[i] != freed[j]
    {
      freed := [];
      if !initialized {
        return;
      }
      initialized := false;
      var node := head;
      ghost var all := nodes;
      head, tail, hasWindow, nodes := null, null, false, [];
      while node != null
        invariant freed <= all && (if |freed| < |all| then node == all[|freed|] else node == null)
        decreases |all| - |freed|
      {
        freed := freed + [node];
        node := node.next;
      }
    }
  }
}
