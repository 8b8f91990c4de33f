/** Connection polling (src/network_monitor.c).  The TCP table and the process lookups are inputs. */
module Connections {
  import opened WideStrings
  import opened Formatting
  import opened Events
  import opened Sorting

  const MIB_TCP_STATE_ESTAB := 5

  /** A row of the extended TCP table; ports are network-order values in a 32-bit field. */
  datatype TcpRow = TcpRow(
    state: Dword, localAddress: Dword, localPort: Dword, remoteAddress: Dword, remotePort: Dword, owningPid: Dword)

  datatype Connection = Connection(
    pid: Dword, localAddress: Dword, localPort: Word, remoteAddress: Dword, remotePort: Word)

  const NO_CONNECTION := Connection(0, 0, 0, 0, 0)

  /** ntohs of the low half of a 32-bit field. */
  function Ntohs(field: Dword): Word {
    var low := field % 0x1_0000;
    (low % 0x100) * 0x100 + low / 0x100
  }

  function ConnectionOf(row: TcpRow): Connection {
    Connection(row.owningPid, row.localAddress, Ntohs(row.localPort), row.remoteAddress, Ntohs(row.remotePort))
  }

  /** compare_connection_keys: the five fields, one after the other. */
  function CompareConnections(left: Connection, right: Connection): int {
    var c := CompareNumbers(left.pid, right.pid);
    if c != 0 then c else
    var c := CompareNumbers(left.localAddress, right.localAddress);
    if c != 0 then c else
    var c := CompareNumbers(left.localPort, right.localPort);
    if c != 0 then c else
    var c := CompareNumbers(left.remoteAddress, right.remoteAddress);
    if c != 0 then c else
    CompareNumbers(left.remotePort, right.remotePort)
  }

  /** The comparison is a total order: it is 0 only between equal keys. */
  lemma ConnectionsOrdered(a: Connection, b: Connection, c: Connection)
    ensures CompareConnections(a, b) == 0 <==> a == b
    ensures CompareConnections(b, a) == -CompareConnections(a, b)
    ensures CompareConnections(a, b) <= 0 && CompareConnections(b, c) <= 0 ==> CompareConnections(a, c) <= 0
  {
  }

  /** qsort therefore has exactly one result: the table's row order does not matter. */
  lemma SortedConnectionsUnique(a: seq<Connection>, b: seq<Connection>, x: seq<Connection>, y: seq<Connection>)
    requires multiset(a) == multiset(b) && SortOf(CompareConnections, a, x) && SortOf(CompareConnections, b, y)
    ensures x == y && Sorted(CompareConnections, x)
  {
    AlwaysPreorders(a);
    AlwaysPreorders(b);
    forall p, q | p in x && q in x && CompareConnections(p, q) <= 0 && CompareConnections(q, p) <= 0 ensures p == q {
      ConnectionsOrdered(p, q, q);
    }
    SortedUnique(CompareConnections, x, y);
  }

  lemma AlwaysPreorders(items: seq<Connection>)
    ensures Preorders(CompareConnections, items)
  {
  }

  /** connection_exists: bsearch over the sorted keys. */
  method ConnectionExists(entries: seq<Connection>, key: Connection) returns (found: bool)
    requires Sorted(CompareConnections, entries)
    ensures found <==> key in entries
  {
    hide CompareConnections;
    var low, high := 0, |entries|;
    while low < high
      invariant 0 <= low <= high <= |entries|
      invariant forall i :: 0 <= i < low || high <= i < |entries| ==> entries[i] != key
    {
      var middle := low + (high - low) / 2;
      var order := CompareConnections(key, entries[middle]);
      forall i | 0 <= i < |entries|
        ensures order < 0 && i >= middle ==> entries[i] != key
        ensures order > 0 && i <= middle ==> entries[i] != key
      {
        ConnectionsOrdered(entries[middle], key, key);
        ConnectionsOrdered(key, entries[middle], entries[i]);
        ConnectionsOrdered(entries[i], entries[middle], key);
      }
      if order == 0 {
        ConnectionsOrdered(key, entries[middle], key);
        return true;
      } else if order < 0 {
        high := middle;
      } else {
        low := middle + 1;
      }
    }
    return false;
  }

  // ---- what a poll emits ----

  /** The ESTABLISHED rows of a table, as keys in table order. */
  function Established(rows: seq<TcpRow>): seq<Connection> {
    if rows == [] then []
    else
      var n := |rows| - 1;
      if rows[n].state != MIB_TCP_STATE_ESTAB then Established(rows[..n])
      else Established(rows[..n]) + [ConnectionOf(rows[n])]
  }

  /** Those not known from the previous poll, in table order. */
  function Fresh(previous: seq<Connection>, current: seq<Connection>): seq<Connection> {
    if current == [] then []
    else
      var n := |current| - 1;
      if current[n] in previous then Fresh(previous, current[..n]) else Fresh(previous, current[..n]) + [current[n]]
  }

  /** A connection is emitted as often as it is ESTABLISHED now, if the previous poll lacked it, and
      otherwise never. */
  lemma {:induction false} FreshIsNew(previous: seq<Connection>, current: seq<Connection>, c: Connection)
    ensures multiset(Fresh(previous, current))[c] == if c in previous then 0 else multiset(current)[c]
  {
    if current == [] {
    } else {
      var n := |current| - 1;
      FreshIsNew(previous, current[..n], c);
      assert current == current[..n] + [current[n]];
    }
  }

  /** What the process queries answer while an event is built. */
  datatype ProcessInfo = ProcessInfo(creationTime: Qword, path: Wide, name: Option<Wide>)

  /** The environment of one poll: process queries, InetNtopW, and the time for each row. */
  datatype Environment = Environment(process: Dword -> ProcessInfo, address: Dword -> Wide, now: nat -> SystemTime)

  function OwnerName(info: ProcessInfo): Wide {
    if info.path != [] then PathBasename(info.path)
    else
      match info.name
      case Some(name) => name
      case None => W("<unknown>")
  }

  /** emit_network_event for the connection of table row `index`; PID 0 is never queried. */
  function NetworkEvent(c: Connection, env: Environment, index: nat): Event {
    var info := if c.pid == 0 then ProcessInfo(0, [], env.process(0).name) else env.process(c.pid);
    var local := Truncated(env.address(c.localAddress), 64);
    var remote := Truncated(env.address(c.remoteAddress), 64);
    NO_EVENT.(
      kind := Network,
      process := ProcessKey(c.pid, info.creationTime),
      timestamp := env.now(index),
      processName := Truncated(OwnerName(info), MAX_PATH),
      executablePath := Truncated(info.path, MAX_PATH),
      protocol := W("TCP"),
      localAddress := local,
      remoteAddress := remote,
      networkState := W("ESTABLISHED"),
      localPort := c.localPort,
      remotePort := c.remotePort,
      details := Truncated(W("Established TCP connection; local ") + local + W(":") + Decimal(c.localPort) +
                           W("; remote ") + remote + W(":") + Decimal(c.remotePort), DETAIL_LENGTH))
  }

  /** Everything one successful poll emits: one event per fresh ESTABLISHED row. */
  function NetworkEvents(previous: seq<Connection>, rows: seq<TcpRow>, env: Environment): seq<Event> {
    if rows == [] then []
    else
      var n := |rows| - 1;
      var earlier := NetworkEvents(previous, rows[..n], env);
      if rows[n].state != MIB_TCP_STATE_ESTAB || ConnectionOf(rows[n]) in previous then earlier
      else earlier + [NetworkEvent(ConnectionOf(rows[n]), env, n)]
  }

  /** The connection an emitted event reports. */
  predicate ReportsConnection(e: Event, c: Connection, env: Environment) {
    && e.kind == Network && e.process.pid == c.pid && e.localPort == c.localPort && e.remotePort == c.remotePort
    && e.localAddress == Truncated(env.address(c.localAddress), 64)
    && e.remoteAddress == Truncated(env.address(c.remoteAddress), 64)
  }

  /** The emitted events are those of the fresh ESTABLISHED rows, one for one and in table order. */
  lemma {:induction false} EventsAreFresh(previous: seq<Connection>, rows: seq<TcpRow>, env: Environment)
    ensures var events := NetworkEvents(previous, rows, env); var connections := Fresh(previous, Established(rows));
      |events| == |connections| && forall i :: 0 <= i < |events| ==> ReportsConnection(events[i], connections[i], env)
  {
    hide Established, Fresh, NetworkEvent, ConnectionOf, ReportsConnection;
    RowsStep(previous, rows);
    if rows == [] {
    } else {
      var n := |rows| - 1;
      EventsAreFresh(previous, rows[..n], env);
      Reports(ConnectionOf(rows[n]), env, n);
    }
  }

  lemma RowsStep(previous: seq<Connection>, rows: seq<TcpRow>)
    ensures var news := Fresh(previous, Established(rows)); var n := |rows| - 1;
      if rows == [] then news == []
      else if rows[n].state != MIB_TCP_STATE_ESTAB || ConnectionOf(rows[n]) in previous
      then news == Fresh(previous, Established(rows[..n]))
      else news == Fresh(previous, Established(rows[..n])) + [ConnectionOf(rows[n])]
  {
  }

  lemma Reports(c: Connection, env: Environment, n: nat)
    ensures ReportsConnection(NetworkEvent(c, env, n), c, env)
  {
    hide Truncated, OwnerName, W, Decimal;
  }
}

module NetworkMonitors {
  import opened WideStrings
  import opened Connections
  import opened Snapshots
  import opened ProcessMonitors
  import opened EventQueues
  import opened Sorting

  class NetworkMonitor {
    var previous: seq<Connection>

    ghost predicate Valid()
      reads this
    {
      Sorted(CompareConnections, previous)
    }

    constructor ()
      ensures Valid() && previous == []
    {
      previous := [];
    }

    /** network_monitor_poll; `table` is None when a query or an allocation before the loop failed. */
    method Poll(queue: EventQueue, table: Option<seq<TcpRow>>, env: Environment, memory: nat -> bool)
      returns (ok: bool)
      requires Valid() && queue.Valid() && this !in queue.Repr
      modifies this, queue.Repr
      ensures Valid() && queue.Valid() && queue.initialized == old(queue.initialized)
      ensures ok == table.Some?
      ensures !ok ==> previous == old(previous) && queue.Contents() == old(queue.Contents())
      ensures ok ==> SortOf(CompareConnections, Established(table.value), previous)
      ensures ok ==>
        var emitted := NetworkEvents(old(previous), table.value, env);
        queue.Contents() == old(queue.Contents()) + Pushes(queue.initialized, emitted, memory)
    {
      hide NetworkEvents, Pushes, Established, EventQueue.Valid, EventQueue.Contents, Preorders, Sorted;
      if table == None {
        return false;
      }
      var current := ScanTable(queue, previous, table.value, env, memory);
      previous := Sort(current, CompareConnections);
      AlwaysPreorders(current);
      return true;
    }
  }

  /** The row loop: collects the ESTABLISHED keys and emits those the previous poll lacked. */
  method ScanTable(queue: EventQueue, previous: seq<Connection>, rows: seq<TcpRow>, env: Environment,
                   memory: nat -> bool)
    returns (keys: seq<Connection>)
    requires Sorted(CompareConnections, previous) && queue.Valid()
    modifies queue.Repr
    ensures queue.Valid() && queue.initialized == old(queue.initialized) && fresh(queue.Repr - old(queue.Repr))
    ensures keys == Established(rows)
    ensures queue.Contents() ==
      old(queue.Contents()) + Pushes(queue.initialized, NetworkEvents(previous, rows, env), memory)
  {
    hide Holds, NetworkEvent, Sorted, ConnectionOf;
    ghost var base := queue.Contents();
    NothingPushed(queue, memory);
    var current := new Connection[|rows|](_ => NO_CONNECTION);
    var currentCount := 0;
    var count := 0;
    for index := 0 to |rows|
      invariant currentCount <= index && current[..currentCount] == Established(rows[..index])
      invariant Holds(queue, base, NetworkEvents(previous, rows[..index], env), memory)
      invariant queue.initialized == old(queue.initialized)
      invariant fresh(queue.Repr - old(queue.Repr)) && fresh(current) && current !in queue.Repr
      invariant count == |NetworkEvents(previous, rows[..index], env)|
    {
      assert rows[..index + 1][..index] == rows[..index];
      var row := rows[index];
      if row.state == MIB_TCP_STATE_ESTAB {
        var key := ConnectionOf(row);
        ghost var before := current[..currentCount];
        current[currentCount] := key;
        currentCount := currentCount + 1;
        assert current[..currentCount] == before + [key];
        var known := ConnectionExists(previous, key);
        if !known {
          PushNext(queue, NetworkEvent(key, env, index), memory, count, base,
                   NetworkEvents(previous, rows[..index], env));
          count := count + 1;
        }
      }
    }
    assert rows[..|rows|] == rows;
    HoldsMeans(queue, base, NetworkEvents(previous, rows, env), memory);
    keys := current[..currentCount];
  }
}
