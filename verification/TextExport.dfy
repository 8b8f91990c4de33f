/** The plain-text export (write_text_export in src/export.c): one line per event. */
module TextExports {
  import opened WideStrings
  import opened Formatting
  import opened Events
  import opened EventStores
  import opened ExportFiles
  import CsvDocuments

  const LINE_CAPACITY := 1536

  function FullLine(e: Event): Wide {
    FormatTimestamp(e.timestamp) + W(" | ") + EventTypeName(e.kind) + W(" | ") + e.processName + W(" | PID ") +
    Decimal(e.process.pid) + W(" | Parent PID ") + Decimal(e.parent.pid) + W(" | ") + e.details + LINE_END
  }

  /** StringCchPrintfW into the line buffer. */
  function TextLine(e: Event): (line: Wide)
    ensures |line| < LINE_CAPACITY
  {
    Truncated(FullLine(e), LINE_CAPACITY)
  }

  function TextLines(events: seq<Event>): Wide {
    if events == [] then [] else TextLine(events[0]) + TextLines(events[1..])
  }

  function TextDocument(events: seq<Event>): Wide { [CsvDocuments.BYTE_ORDER_MARK] + TextLines(events) }

  // ---- no line is cut ----

  function PowerOfTen(n: nat): nat { if n == 0 then 1 else 10 * PowerOfTen(n - 1) }

  lemma {:induction false} DecimalDigits(n: nat, digits: nat)
    requires digits > 0 && n < PowerOfTen(digits)
    ensures |Decimal(n)| <= digits
  {
    if n < 10 {
    } else {
      assert digits > 1;
      DecimalDigits(n / 10, digits - 1);
    }
  }

  lemma PaddedDigits(n: Word, width: nat)
    requires width <= 5
    ensures |Padded(n, width)| <= 5
  {
    assert PowerOfTen(5) == 100000;
    DecimalDigits(n, 5);
  }

  lemma PidDigits(pid: Dword)
    ensures |Decimal(pid)| <= 10
  {
    assert PowerOfTen(5) == 100000 && PowerOfTen(10) == 100000 * PowerOfTen(5);
    DecimalDigits(pid, 10);
  }

  lemma TimestampShort(t: SystemTime)
    ensures |FormatTimestamp(t)| <= 41
  {
    hide Padded, W;
    PaddedDigits(t.year, 4);
    PaddedDigits(t.month, 2);
    PaddedDigits(t.day, 2);
    PaddedDigits(t.hour, 2);
    PaddedDigits(t.minute, 2);
    PaddedDigits(t.second, 2);
    PaddedDigits(t.milliseconds, 3);
  }

  /** The line buffer holds every event whose name and details fit their own buffers, line end included. */
  lemma LinesComplete(e: Event)
    requires |e.processName| < MAX_PATH && |e.details| < DETAIL_LENGTH
    ensures TextLine(e) == FullLine(e)
  {
    hide FormatTimestamp, Decimal, W, Truncated;
    TimestampShort(e.timestamp);
    PidDigits(e.process.pid);
    PidDigits(e.parent.pid);
  }

  // ---- the writer ----

  function Lines(events: seq<Event>): (pieces: seq<Wide>)
    ensures |pieces| == |events|
  {
    seq(|events|, i requires 0 <= i < |events| => TextLine(events[i]))
  }

  lemma {:induction false} LinesConcat(events: seq<Event>)
    ensures TextLines(events) == Concat(Lines(events))
  {
    hide TextLine;
    if events == [] {
    } else {
      LinesConcat(events[1..]);
      ConcatOne(TextLine(events[0]));
      ConcatAppend([TextLine(events[0])], Lines(events[1..]));
      assert Lines(events) == [TextLine(events[0])] + Lines(events[1..]);
    }
  }

  function DocumentPieces(events: seq<Event>): (pieces: seq<Wide>)
    ensures |pieces| == |events| + 1
  {
    [[CsvDocuments.BYTE_ORDER_MARK]] + Lines(events)
  }

  lemma DocumentPiecesAre(events: seq<Event>)
    ensures var pieces := DocumentPieces(events);
      && pieces[0] == [CsvDocuments.BYTE_ORDER_MARK] && Concat(pieces) == TextDocument(events)
      && forall i :: 1 <= i <= |events| ==> pieces[i] == TextLine(events[i - 1])
  {
    hide TextLine, TextLines;
    LinesConcat(events);
    ConcatOne([CsvDocuments.BYTE_ORDER_MARK]);
    ConcatAppend([[CsvDocuments.BYTE_ORDER_MARK]], Lines(events));
  }

  /** write_text_export: the document of the events from `firstEvent` on, or part of it on failure. */
  method WriteTextExport(file: ExportFile, store: EventStore, firstEvent: nat) returns (ok: bool)
    requires store.Valid() && firstEvent <= store.eventCount
    modifies file
    ensures Wrote(old(file.contents), file.contents, TextDocument(store.events[firstEvent..store.eventCount]), ok)
    ensures file.device.Reliable() ==> ok
  {
    hide Written, Stopped, Wrote, Concat, DocumentPieces, TextDocument, TextLine;
    ghost var events := store.events[firstEvent..store.eventCount];
    ghost var (start, pieces) := (file.contents, DocumentPieces(events));
    WritingStarts(start, pieces);
    DocumentPiecesAre(events);
    ok := file.WriteAll([CsvDocuments.BYTE_ORDER_MARK]);
    WriteStep(start, start, file.contents, pieces, 0, ok);
    if !ok {
      WritingEnds(start, file.contents, pieces, false);
      return;
    }
    for index := firstEvent to store.eventCount
      invariant Writing(start, file.contents, pieces, 1 + index - firstEvent, true)
    {
      assert events[index - firstEvent] == store.events[index];
      ok := file.WritePiece(start, pieces, 1 + index - firstEvent, TextLine(store.events[index]));
      if !ok {
        WritingEnds(start, file.contents, pieces, false);
        return;
      }
    }
    WritingEnds(start, file.contents, pieces, true);
    return true;
  }
}
