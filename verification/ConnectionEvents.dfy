/** What the events of a connection poll say (src/network_monitor.c), told from the rows of the TCP table. */
module ConnectionEvents {
  import opened WideStrings
  import opened Formatting
  import opened Events
  import opened Connections

  /** The port in the low half of a 32-bit field in network order. */
  predicate IsPort(port: Word, field: Dword) { field % 0x1_0000 == port % 0x100 * 0x100 + port / 0x100 }

  /** The remembered key is that of this row. */
  predicate IsKey(key: Connection, row: TcpRow) {
    && key.pid == row.owningPid
    && key.localAddress == row.localAddress && IsPort(key.localPort, row.localPort)
    && key.remoteAddress == row.remoteAddress && IsPort(key.remotePort, row.remotePort)
  }

  /** An established connection that the previous poll did not see. */
  ghost predicate Appeared(previous: seq<Connection>, row: TcpRow) {
    row.state == 5 && forall i :: 0 <= i < |previous| ==> !IsKey(previous[i], row)
  }

  /** The event reports the connection of table row `n` and nothing else. */
  ghost predicate ReportsRow(e: Event, row: TcpRow, n: nat, env: Environment) {
    var pid := row.owningPid;
    && e == NO_EVENT.(kind := Network, process := e.process, timestamp := env.now(n), protocol := W("TCP"),
                      networkState := W("ESTABLISHED"), localAddress := e.localAddress, localPort := e.localPort,
                      remoteAddress := e.remoteAddress, remotePort := e.remotePort, processName := e.processName,
                      executablePath := e.executablePath, details := e.details)
    && e.process == ProcessKey(pid, if pid == 0 then 0 else env.process(pid).creationTime)
    && IsPort(e.localPort, row.localPort) && IsPort(e.remotePort, row.remotePort)
    && e.localAddress == Truncated(env.address(row.localAddress), 64)
    && e.remoteAddress == Truncated(env.address(row.remoteAddress), 64)
    && e.details == Truncated(W("Established TCP connection; local ") + e.localAddress + W(":") + Decimal(e.localPort) +
                              W("; remote ") + e.remoteAddress + W(":") + Decimal(e.remotePort), DETAIL_LENGTH)
    && ReportsOwner(e, if pid == 0 then [] else env.process(pid).path, env.process(pid).name)
  }

  /** The owner is named by its path; without one by the answer of the second query, if there is one. */
  ghost predicate ReportsOwner(e: Event, path: Wide, name: Option<Wide>) {
    && e.executablePath == Truncated(path, MAX_PATH)
    && e.processName == Truncated(
         if path != [] then PathBasename(path) else match name case Some(n) => n case None => W("<unknown>"), MAX_PATH)
  }

  lemma TwoBytes(high: nat, low: nat)
    requires low < 0x100
    ensures (high * 0x100 + low) / 0x100 == high && (high * 0x100 + low) % 0x100 == low
  {
  }

  lemma SwappedBytes(field: Dword, port: Word)
    ensures Ntohs(field) == port <==> IsPort(port, field)
  {
    var half := field % 0x1_0000;
    var (a, b) := (half / 0x100, half % 0x100);
    var (c, d) := (port / 0x100, port % 0x100);
    assert half == a * 0x100 + b && port == c * 0x100 + d && a < 0x100 && c < 0x100;
    TwoBytes(b, a);
    TwoBytes(d, c);
    assert Ntohs(field) == b * 0x100 + a;
    assert IsPort(port, field) <==> half == d * 0x100 + c;
  }

  lemma KeyOfRow(key: Connection, row: TcpRow)
    ensures ConnectionOf(row) == key <==> IsKey(key, row)
  {
    hide Ntohs, IsPort;
    SwappedBytes(row.localPort, key.localPort);
    SwappedBytes(row.remotePort, key.remotePort);
  }

  /** The keys a poll remembers are those of the ESTABLISHED rows. */
  lemma {:induction false} KeysAreRows(rows: seq<TcpRow>, key: Connection)
    ensures key in Established(rows) <==> exists n :: 0 <= n < |rows| && rows[n].state == 5 && IsKey(key, rows[n])
  {
    hide ConnectionOf, IsKey;
    if rows == [] {
    } else {
      var n := |rows| - 1;
      KeysAreRows(rows[..n], key);
      KeyOfRow(key, rows[n]);
      assert forall i :: 0 <= i < n ==> rows[..n][i] == rows[i];
    }
  }

  lemma RowAppeared(previous: seq<Connection>, row: TcpRow)
    ensures Appeared(previous, row) <==> row.state == MIB_TCP_STATE_ESTAB && ConnectionOf(row) !in previous
  {
    hide ConnectionOf, IsKey;
    forall i | 0 <= i < |previous| ensures previous[i] == ConnectionOf(row) <==> IsKey(previous[i], row) {
      KeyOfRow(previous[i], row);
    }
  }

  lemma RowReported(row: TcpRow, n: nat, env: Environment)
    ensures ReportsRow(NetworkEvent(ConnectionOf(row), env, n), row, n, env)
  {
    hide Ntohs, IsPort, Truncated, Decimal, W, PathBasename;
    SwappedBytes(row.localPort, Ntohs(row.localPort));
    SwappedBytes(row.remotePort, Ntohs(row.remotePort));
  }

  /** The rows that appeared, in table order. */
  ghost function NewRows(previous: seq<Connection>, rows: seq<TcpRow>, n: nat): (r: seq<nat>)
    requires n <= |rows|
    ensures forall k :: 0 <= k < |r| ==> r[k] < n
  {
    if n == 0 then []
    else if Appeared(previous, rows[n - 1]) then NewRows(previous, rows, n - 1) + [n - 1]
    else NewRows(previous, rows, n - 1)
  }

  /** These are exactly the rows that appeared, each once. */
  lemma {:induction false} NewRowsAre(previous: seq<Connection>, rows: seq<TcpRow>, n: nat)
    requires n <= |rows|
    ensures var r := NewRows(previous, rows, n);
      && (forall i :: i in r <==> 0 <= i < n && Appeared(previous, rows[i]))
      && (forall k, l :: 0 <= k < l < |r| ==> r[k] < r[l])
  {
    hide Appeared;
    if n == 0 {
    } else {
      NewRowsAre(previous, rows, n - 1);
    }
  }

  /** A poll emits one event per row that appeared, in table order, and each reports its row. */
  lemma {:induction false} RowsReported(previous: seq<Connection>, rows: seq<TcpRow>, env: Environment, n: nat)
    requires n <= |rows|
    ensures var (events, news) := (NetworkEvents(previous, rows[..n], env), NewRows(previous, rows, n));
      |events| == |news| && forall k :: 0 <= k < |events| ==> ReportsRow(events[k], rows[news[k]], news[k], env)
  {
    hide NetworkEvent, ConnectionOf, ReportsRow, Appeared;
    if n == 0 {
    } else {
      RowsReported(previous, rows, env, n - 1);
      RowAppeared(previous, rows[n - 1]);
      RowReported(rows[n - 1], n - 1, env);
      assert rows[..n][..n - 1] == rows[..n - 1];
    }
  }
}
