/** write_csv_field and write_csv_export (src/export.c), writing in place. */
module CsvWriters {
  import opened WideStrings
  import opened Formatting
  import opened Events
  import opened ExportFields
  import opened ExportFiles
  import opened CsvDocuments
  import opened EventStores
  import Capacity

  lemma DoubledNext(s: Wide, n: nat)
    requires n < |s|
    ensures Doubled(s[..n + 1]) == Doubled(s[..n]) + DoubledUnit(s[n])
  {
    assert s[..n + 1][..n] == s[..n];
  }

  lemma NothingDoubled(s: Wide)
    ensures Doubled(s[..0]) == []
  {
  }

  /** The body of the quoting loop: a quote takes two units, anything else one. */
  method PutDoubled(buffer: array<Unit>, target: nat, unit: Wchar) returns (next: nat)
    requires target + 2 <= buffer.Length
    modifies buffer
    ensures target < next <= target + 2
    ensures buffer[..next] == old(buffer[..target]) + DoubledUnit(unit)
  {
    ghost var before := buffer[..target];
    next := target;
    if unit == 0x22 {
      buffer[next] := 0x22;
      next := next + 1;
    }
    buffer[next] := unit;
    next := next + 1;
    assert buffer[..next] == before + DoubledUnit(unit);
  }

  /** The quoting loop of write_csv_field: it stays inside its 2 * length + 3 units and leaves the
      quoted text there, terminated. */
  method QuoteInto(escaped: array<Unit>, value: Wide)
    requires escaped.Length == |value| * 2 + 3
    modifies escaped
    ensures Content(escaped[..]) == CsvField(value)
  {
    hide Doubled, DoubledUnit, Content;
    escaped[0] := 0x22;
    var target := 1;
    NothingDoubled(value);
    assert escaped[..1] == [0x22];
    for index := 0 to |value|
      invariant target == 1 + |Doubled(value[..index])| && target <= 1 + 2 * index
      invariant escaped[..target] == [0x22] + Doubled(value[..index])
    {
      DoubledNext(value, index);
      target := PutDoubled(escaped, target, value[index]);
    }
    assert value[..|value|] == value;
    ghost var before := escaped[..target];
    escaped[target] := 0x22;
    target := target + 1;
    assert escaped[..target] == before + [0x22];
    escaped[target] := 0;
    assert escaped[..target] == CsvField(value);
    TextInBuffer(escaped[..], CsvField(value));
  }

  /** write_csv_field. */
  method WriteCsvField(file: ExportFile, value: Wide) returns (ok: bool)
    modifies file
    ensures Wrote(old(file.contents), file.contents, CsvField(value), ok)
    ensures file.device.Reliable() && |CsvField(value)| <= INT_MAX ==> ok
    ensures 2 * |value| + 3 > Capacity.SIZE_MAX / UNIT_BYTES || !file.device.escapes(old(|file.contents|)) ==>
      !ok && file.contents == old(file.contents)
  {
    hide Wrote;
    WroteNothing(file.contents, CsvField(value));
    if |value| > (Capacity.SIZE_MAX / UNIT_BYTES - 3) / 2 {
      return false;
    }
    var capacity := |value| * 2 + 3;
    assert capacity * UNIT_BYTES <= Capacity.SIZE_MAX;
    if !file.device.escapes(|file.contents|) {
      return false;
    }
    var escaped := new Unit[capacity](i => 0);
    QuoteInto(escaped, value);
    ok := file.WriteUtf8(Content(escaped[..]));
  }

  // ---- one record ----

  function JoinedPieces(parts: seq<Wide>): (pieces: seq<Wide>)
    ensures |pieces| == |parts|
  {
    seq(|parts|, i requires 0 <= i < |parts| => parts[i] + FieldEnd(i == |parts| - 1))
  }

  lemma {:induction false} JoinedConcat(parts: seq<Wide>)
    ensures Joined(parts) == Concat(JoinedPieces(parts))
  {
    hide FieldEnd;
    if parts == [] {
    } else {
      var first := parts[0] + FieldEnd(|parts| == 1);
      JoinedConcat(parts[1..]);
      ConcatOne(first);
      ConcatAppend([first], JoinedPieces(parts[1..]));
      assert JoinedPieces(parts) == [first] + JoinedPieces(parts[1..]);
    }
  }

  function RecordPieces(e: Event): (pieces: seq<Wide>)
    ensures |pieces| == 14
  {
    JoinedPieces(Quoted(Texts(e)))
  }

  lemma PiecesOfRecord(e: Event)
    ensures forall k :: 0 <= k < 14 ==>
      RecordPieces(e)[k] == CsvField(FieldText(Fields(e)[k])) + if k == 13 then LINE_END else SEPARATOR
  {
    hide CsvField, Fields, FieldText, W;
    forall k | 0 <= k < 14
      ensures RecordPieces(e)[k] == CsvField(FieldText(Fields(e)[k])) + if k == 13 then LINE_END else SEPARATOR
    {
      assert Texts(e)[k] == FieldText(Fields(e)[k]);
      assert Quoted(Texts(e))[k] == CsvField(Texts(e)[k]);
      assert RecordPieces(e)[k] == Quoted(Texts(e))[k] + FieldEnd(k == 13);
    }
  }

  /** Every text of the event has a quoted form that one write can take. */
  ghost predicate Writable(e: Event) {
    forall k :: 0 <= k < 14 ==> |CsvField(FieldText(Fields(e)[k]))| <= INT_MAX
  }

  /** CSV_TEXT, for the piece `k` of a record: a field and the comma after it. */
  method WriteCsvText(file: ExportFile, ghost start: seq<Unit>, ghost pieces: seq<Wide>, ghost k: nat, value: Wide)
    returns (ok: bool)
    requires k < |pieces| && pieces[k] == CsvField(value) + SEPARATOR && Writing(start, file.contents, pieces, k, true)
    modifies file
    ensures Writing(start, file.contents, pieces, k + 1, ok)
    ensures file.device.Reliable() && |CsvField(value)| <= INT_MAX ==> ok
  {
    ok := WriteFieldThen(file, start, pieces, k, value, SEPARATOR);
  }

  /** The last field of a record and its line break. */
  method WriteCsvLast(file: ExportFile, ghost start: seq<Unit>, ghost pieces: seq<Wide>, ghost k: nat, value: Wide)
    returns (ok: bool)
    requires k < |pieces| && pieces[k] == CsvField(value) + LINE_END && Writing(start, file.contents, pieces, k, true)
    modifies file
    ensures Writing(start, file.contents, pieces, k + 1, ok)
    ensures file.device.Reliable() && |CsvField(value)| <= INT_MAX ==> ok
  {
    ok := WriteFieldThen(file, start, pieces, k, value, LINE_END);
  }

  method WriteFieldThen(file: ExportFile, ghost start: seq<Unit>, ghost pieces: seq<Wide>, ghost k: nat, value: Wide,
                        end: Wide) returns (ok: bool)
    requires k < |pieces| && pieces[k] == CsvField(value) + end && Writing(start, file.contents, pieces, k, true)
    requires |end| <= 2
    modifies file
    ensures Writing(start, file.contents, pieces, k + 1, ok)
    ensures file.device.Reliable() && |CsvField(value)| <= INT_MAX ==> ok
  {
    hide Written, Stopped, Wrote, CsvField, Concat, W;
    ghost var parts := [CsvField(value), end];
    ghost var before := file.contents;
    WritingStarts(before, parts);
    ok := WriteCsvField(file, value);
    WriteStep(before, before, file.contents, parts, 0, ok);
    if ok {
      ok := file.WritePiece(before, parts, 1, end);
    }
    WritingEnds(before, file.contents, parts, ok);
    TwoParts(parts[0], parts[1]);
    WriteStep(start, before, file.contents, pieces, k, ok);
  }

  /** The loop body of write_csv_export up to the PID. */
  method WriteCsvHead(file: ExportFile, ghost start: seq<Unit>, event: Event) returns (ok: bool)
    requires Writing(start, file.contents, RecordPieces(event), 0, true)
    modifies file
    ensures Writing(start, file.contents, RecordPieces(event), 4, ok)
    ensures file.device.Reliable() && Writable(event) ==> ok
  {
    hide Written, Stopped, Wrote, CsvField, Concat, RecordPieces, FormatTimestamp, EventExportName, AlertSeverityName,
      Decimal, W, Device.Reliable;
    ghost var pieces := RecordPieces(event);
    PiecesOfRecord(event);
    ok := WriteCsvText(file, start, pieces, 0, FormatTimestamp(event.timestamp));
    if ok {
      ok := WriteCsvText(file, start, pieces, 1, EventExportName(event.kind));
    }
    if ok {
      ok := WriteCsvText(file, start, pieces, 2, event.processName);
    }
    if ok {
      ok := WriteCsvText(file, start, pieces, 3, Decimal(event.process.pid));
    }
  }

  /** The loop body from the parent PID to the local port. */
  method WriteCsvMiddle(file: ExportFile, ghost start: seq<Unit>, event: Event) returns (ok: bool)
    requires Writing(start, file.contents, RecordPieces(event), 4, true)
    modifies file
    ensures Writing(start, file.contents, RecordPieces(event), 9, ok)
    ensures file.device.Reliable() && Writable(event) ==> ok
  {
    hide Written, Stopped, Wrote, CsvField, Concat, RecordPieces, FormatTimestamp, EventExportName, AlertSeverityName,
      Decimal, W, Device.Reliable;
    ghost var pieces := RecordPieces(event);
    PiecesOfRecord(event);
    ok := WriteCsvText(file, start, pieces, 4, Decimal(event.parent.pid));
    if ok {
      ok := WriteCsvText(file, start, pieces, 5, event.details);
    }
    if ok {
      ok := WriteCsvText(file, start, pieces, 6, event.protocol);
    }
    if ok {
      ok := WriteCsvText(file, start, pieces, 7, event.localAddress);
    }
    if ok {
      ok := WriteCsvText(file, start, pieces, 8, Decimal(event.localPort));
    }
  }

  /** The rest of the loop body. */
  method WriteCsvTail(file: ExportFile, ghost start: seq<Unit>, event: Event) returns (ok: bool)
    requires Writing(start, file.contents, RecordPieces(event), 9, true)
    modifies file
    ensures Writing(start, file.contents, RecordPieces(event), 14, ok)
    ensures file.device.Reliable() && Writable(event) ==> ok
  {
    hide Written, Stopped, Wrote, CsvField, Concat, RecordPieces, FormatTimestamp, EventExportName, AlertSeverityName,
      Decimal, W, Device.Reliable;
    ghost var pieces := RecordPieces(event);
    PiecesOfRecord(event);
    ok := WriteCsvText(file, start, pieces, 9, event.remoteAddress);
    if ok {
      ok := WriteCsvText(file, start, pieces, 10, Decimal(event.remotePort));
    }
    if ok {
      ok := WriteCsvText(file, start, pieces, 11, event.networkState);
    }
    if ok {
      ok := WriteCsvText(file, start, pieces, 12, AlertSeverityName(event.severity));
    }
    if ok {
      ok := WriteCsvLast(file, start, pieces, 13, event.ruleName);
    }
  }

  /** The body of the loop in write_csv_export. */
  method WriteCsvRecord(file: ExportFile, event: Event) returns (ok: bool)
    modifies file
    ensures Wrote(old(file.contents), file.contents, RecordText(event), ok)
    ensures file.device.Reliable() && Writable(event) ==> ok
  {
    hide Written, Stopped, Wrote, Concat, Joined, Quoted, JoinedPieces, Texts, Device.Reliable, Writable;
    ghost var start := file.contents;
    WritingStarts(start, RecordPieces(event));
    ok := WriteCsvHead(file, start, event);
    if ok {
      ok := WriteCsvMiddle(file, start, event);
    }
    if ok {
      ok := WriteCsvTail(file, start, event);
    }
    WritingEnds(start, file.contents, RecordPieces(event), ok);
    JoinedConcat(Quoted(Texts(event)));
  }

  // ---- the document ----

  function RecordTexts(events: seq<Event>): (pieces: seq<Wide>)
    ensures |pieces| == |events|
  {
    seq(|events|, i requires 0 <= i < |events| => RecordText(events[i]))
  }

  lemma {:induction false} RecordsConcat(events: seq<Event>)
    ensures RecordsText(events) == Concat(RecordTexts(events))
  {
    hide RecordText;
    if events == [] {
    } else {
      RecordsConcat(events[1..]);
      ConcatOne(RecordText(events[0]));
      ConcatAppend([RecordText(events[0])], RecordTexts(events[1..]));
      assert RecordTexts(events) == [RecordText(events[0])] + RecordTexts(events[1..]);
    }
  }

  function DocumentPieces(events: seq<Event>): (pieces: seq<Wide>)
    ensures |pieces| == |events| + 2
  {
    [[BYTE_ORDER_MARK], Header()] + RecordTexts(events)
  }

  lemma DocumentPiecesAre(events: seq<Event>)
    ensures var pieces := DocumentPieces(events);
      && pieces[0] == [BYTE_ORDER_MARK] && pieces[1] == Header()
      && forall i :: 2 <= i < |events| + 2 ==> pieces[i] == RecordText(events[i - 2])
  {
    hide RecordText, Header;
  }

  lemma DocumentConcat(events: seq<Event>)
    ensures CsvDocument(events) == Concat(DocumentPieces(events))
  {
    hide RecordTexts, RecordsText, Header;
    RecordsConcat(events);
    TwoParts([BYTE_ORDER_MARK], Header());
    ConcatAppend([[BYTE_ORDER_MARK], Header()], RecordTexts(events));
  }

  /** write_csv_export: the document of the events from `firstEvent` on, or part of it on failure. */
  method WriteCsvExport(file: ExportFile, store: EventStore, firstEvent: nat) returns (ok: bool)
    requires store.Valid() && firstEvent <= store.eventCount
    modifies file
    ensures var events := store.events[firstEvent..store.eventCount];
      && Wrote(old(file.contents), file.contents, CsvDocument(events), ok)
      && (file.device.Reliable() && (forall i :: 0 <= i < |events| ==> Writable(events[i])) ==> ok)
  {
    hide Written, Stopped, Wrote, Concat, DocumentPieces, CsvDocument, Header, RecordText, Writable;
    ghost var events := store.events[firstEvent..store.eventCount];
    ghost var (start, pieces) := (file.contents, DocumentPieces(events));
    HeaderShort();
    WritingStarts(start, pieces);
    DocumentPiecesAre(events);
    DocumentConcat(events);
    ok := file.WriteAll([BYTE_ORDER_MARK]);
    WriteStep(start, start, file.contents, pieces, 0, ok);
    if ok {
      ok := file.WritePiece(start, pieces, 1, Header());
    }
    if !ok {
      WritingEnds(start, file.contents, pieces, false);
      return;
    }
    for index := firstEvent to store.eventCount
      invariant Writing(start, file.contents, pieces, 2 + index - firstEvent, true)
    {
      ghost var before := file.contents;
      ok := WriteCsvRecord(file, store.events[index]);
      assert events[index - firstEvent] == store.events[index];
      WriteStep(start, before, file.contents, pieces, 2 + index - firstEvent, ok);
      if !ok {
        WritingEnds(start, file.contents, pieces, false);
        return;
      }
    }
    WritingEnds(start, file.contents, pieces, true);
    return true;
  }

  lemma HeaderShort()
    ensures |Header()| <= INT_MAX
  {
    hide W;
    NamesShort();
    JoinedShort(Names());
  }

  lemma NamesShort()
    ensures forall i :: 0 <= i < 14 ==> |Names()[i]| <= 20
  {
    hide W, FormatTimestamp, EventExportName, AlertSeverityName;
  }

  lemma {:induction false} JoinedShort(parts: seq<Wide>)
    requires forall i :: 0 <= i < |parts| ==> |parts[i]| <= 20
    ensures |Joined(parts)| <= 22 * |parts|
  {
    if parts == [] {
    } else {
      JoinedShort(parts[1..]);
    }
  }
}
