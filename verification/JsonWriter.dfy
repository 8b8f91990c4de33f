/** write_json_string, write_json_field and write_json_export (src/export.c), writing in place. */
module JsonWriters {
  import opened WideStrings
  import opened Formatting
  import opened Events
  import opened ExportFields
  import opened ExportFiles
  import opened JsonDocuments
  import opened EventStores
  import Capacity

  /** StringCchPrintfW into `room` units of a buffer: the text, truncated if need be, and a NUL. */
  method PrintInto(buffer: array<Unit>, at: nat, room: nat, text: Wide)
    requires 0 < room && at + room <= buffer.Length
    modifies buffer
    ensures var t := Truncated(text, room);
      buffer[..at + |t|] == old(buffer[..at]) + t && buffer[at + |t|] == 0
  {
    ghost var before := buffer[..at];
    var t := Truncated(text, room);
    for index := 0 to |t|
      invariant buffer[..at + index] == before + t[..index]
    {
      buffer[at + index] := t[index];
      assert buffer[..at + index + 1] == before + t[..index] + [t[index]];
    }
    buffer[at + |t|] := 0;
    assert buffer[..at + |t|] == before + t;
  }

  /** The body of the escape loop: one unit is escaped at `target` of the buffer, and 7 units of room
      suffice whatever it is. */
  method PutEscaped(buffer: array<Unit>, target: nat, character: Wchar) returns (next: nat)
    requires target + 7 <= buffer.Length
    modifies buffer
    ensures next == target + |EscapeUnit(character)| && buffer[..next] == old(buffer[..target]) + EscapeUnit(character)
  {
    hide Hex4;
    ghost var before := buffer[..target];
    var simple := SimpleLetter(character);
    if simple.Some? {
      buffer[target] := 0x5C;
      buffer[target + 1] := simple.value;
      next := target + 2;
      assert buffer[..next] == before + [0x5C, simple.value];
    } else if character < 0x20 {
      var text := W("\\u") + Hex4(character);
      PrintInto(buffer, target, buffer.Length - target, text);
      assert Truncated(text, buffer.Length - target) == text;
      next := target + 6;
    } else {
      buffer[target] := character;
      next := target + 1;
      assert buffer[..next] == before + [character];
    }
  }

  /** The letter after the reverse solidus of a two-character escape. */
  function SimpleLetter(u: Wchar): (letter: Option<Wchar>)
    ensures match letter
      case Some(l) => EscapeUnit(u) == [0x5C, l]
      case None => EscapeUnit(u) == if u < 0x20 then W("\\u") + Hex4(u) else [u]
  {
    if u == 0x22 then Some(0x22)
    else if u == 0x5C then Some(0x5C)
    else if u == 0x08 then Some(0x62)
    else if u == 0x0C then Some(0x66)
    else if u == 0x0A then Some(0x6E)
    else if u == 0x0D then Some(0x72)
    else if u == 0x09 then Some(0x74)
    else None
  }

  lemma EscapedNext(s: Wide, n: nat)
    requires n < |s|
    ensures Escaped(s[..n + 1]) == Escaped(s[..n]) + EscapeUnit(s[n])
  {
    assert s[..n + 1][..n] == s[..n];
  }

  /** The escape loop of write_json_string: it stays inside its 6 * length + 3 units and leaves the
      quoted text there, terminated. */
  method EscapeInto(escaped: array<Unit>, value: Wide)
    requires escaped.Length == |value| * 6 + 3
    modifies escaped
    ensures Content(escaped[..]) == JsonString(value)
  {
    hide EscapeUnit;
    escaped[0] := 0x22;
    var target := 1;
    assert escaped[..1] == [0x22];
    for index := 0 to |value|
      invariant target == 1 + |Escaped(value[..index])| && target <= 1 + 6 * index
      invariant escaped[..target] == [0x22] + Escaped(value[..index])
    {
      EscapedNext(value, index);
      target := PutEscaped(escaped, target, value[index]);
    }
    assert value[..|value|] == value;
    ghost var before := escaped[..target];
    escaped[target] := 0x22;
    target := target + 1;
    assert escaped[..target] == before + [0x22];
    escaped[target] := 0;
    assert escaped[..target] == JsonString(value);
    TextInBuffer(escaped[..], JsonString(value));
  }

  method WriteJsonString(file: ExportFile, value: Wide) returns (ok: bool)
    modifies file
    ensures Wrote(old(file.contents), file.contents, JsonString(value), ok)
    ensures file.device.Reliable() && |JsonString(value)| <= INT_MAX ==> ok
    ensures 6 * |value| + 3 > Capacity.SIZE_MAX / UNIT_BYTES || !file.device.escapes(old(|file.contents|)) ==>
      !ok && file.contents == old(file.contents)
  {
    hide Wrote;
    WroteNothing(file.contents, JsonString(value));
    if |value| > (Capacity.SIZE_MAX / UNIT_BYTES - 3) / 6 {
      return false;
    }
    var capacity := |value| * 6 + 3;
    assert capacity * UNIT_BYTES <= Capacity.SIZE_MAX;
    if !file.device.escapes(|file.contents|) {
      return false;
    }
    var escaped := new Unit[capacity](i => 0);
    EscapeInto(escaped, value);
    ok := file.WriteUtf8(Content(escaped[..]));
  }

  // ---- the pieces of an object and of the document ----

  function MemberPieces(fields: seq<Field>): (pieces: seq<Wide>)
    ensures |pieces| == |fields|
  {
    seq(|fields|, i requires 0 <= i < |fields| => MemberText(fields[i], i == |fields| - 1))
  }

  lemma {:induction false} MembersConcat(fields: seq<Field>)
    ensures MembersText(fields) == Concat(MemberPieces(fields))
  {
    hide MemberText;
    if fields == [] {
    } else {
      var (first, rest) := ([MemberText(fields[0], |fields| == 1)], MemberPieces(fields[1..]));
      MembersConcat(fields[1..]);
      assert MemberPieces(fields) == first + rest;
      ConcatAppend(first, rest);
      assert first[..0] == [];
    }
  }

  lemma FiveParts(a: Wide, b: Wide, c: Wide, d: Wide, e: Wide)
    ensures Concat([a, b, c, d, e]) == a + b + c + d + e
  {
    ThreeParts(a, b, c);
    assert [a, b, c, d, e][..4][..3] == [a, b, c];
  }

  lemma ThreeParts(a: Wide, b: Wide, c: Wide)
    ensures Concat([a, b, c]) == a + b + c
  {
    TwoParts(a, b);
    assert [a, b, c][..2] == [a, b];
  }

  /** write_json_field, for the piece `k` of an object. */
  method WriteJsonField(file: ExportFile, ghost start: seq<Unit>, ghost pieces: seq<Wide>, ghost k: nat,
                        name: Wide, value: Wide, trailingComma: bool) returns (ok: bool)
    requires k < |pieces| && pieces[k] == MemberText(Field(name, TextField(value)), !trailingComma)
    requires Writing(start, file.contents, pieces, k, true)
    modifies file
    ensures Writing(start, file.contents, pieces, k + 1, ok)
    ensures file.device.Reliable() && |name| <= INT_MAX && |JsonString(value)| <= INT_MAX ==> ok
  {
    hide Written, Stopped, Wrote, JsonString, Concat;
    var end := if trailingComma then W(",\r\n") else W("\r\n");
    ghost var parts := [W("    \""), name, W("\": "), JsonString(value), end];
    ghost var before := file.contents;
    WritingStarts(before, parts);
    ok := file.WritePiece(before, parts, 0, W("    \""));
    if ok {
      ok := file.WritePiece(before, parts, 1, name);
    }
    if ok {
      ok := file.WritePiece(before, parts, 2, W("\": "));
    }
    if ok {
      ghost var soFar := file.contents;
      ok := WriteJsonString(file, value);
      WriteStep(before, soFar, file.contents, parts, 3, ok);
    }
    if ok {
      ok := file.WritePiece(before, parts, 4, end);
    }
    WritingEnds(before, file.contents, parts, ok);
    FiveParts(parts[0], parts[1], parts[2], parts[3], parts[4]);
    WriteStep(start, before, file.contents, pieces, k, ok);
  }

  /** The three writes of a numeric field. */
  method WriteJsonNumber(file: ExportFile, ghost start: seq<Unit>, ghost pieces: seq<Wide>, ghost k: nat,
                         name: Wide, number: nat) returns (ok: bool)
    requires k < |pieces| && pieces[k] == MemberText(Field(name, NumberField(number)), false)
    requires Writing(start, file.contents, pieces, k, true)
    modifies file
    ensures Writing(start, file.contents, pieces, k + 1, ok)
    ensures file.device.Reliable() && |name| <= 100 && number < 0x1_0000_0000 ==> ok
  {
    hide Written, Stopped, Wrote, Concat;
    var head := W("    \"") + name + W("\": ");
    ghost var parts := [head, Decimal(number), W(",\r\n")];
    ghost var before := file.contents;
    DecimalShort(number);
    WritingStarts(before, parts);
    ok := file.WritePiece(before, parts, 0, head);
    if ok {
      ok := file.WritePiece(before, parts, 1, Decimal(number));
    }
    if ok {
      ok := file.WritePiece(before, parts, 2, W(",\r\n"));
    }
    WritingEnds(before, file.contents, parts, ok);
    ThreeParts(parts[0], parts[1], parts[2]);
    WriteStep(start, before, file.contents, pieces, k, ok);
  }

  lemma {:induction false} DecimalShort(n: nat)
    ensures |Decimal(n)| <= 1 + n / 10
  {
    if n < 10 {
    } else {
      DecimalShort(n / 10);
    }
  }

  // ---- one event ----

  function ObjectPieces(e: Event, last: bool): (pieces: seq<Wide>)
    ensures |pieces| == 16
  {
    [W("  {\r\n")] + MemberPieces(Fields(e)) + [if last then W("  }\r\n") else W("  },\r\n")]
  }

  lemma ObjectConcat(e: Event, last: bool)
    ensures ObjectText(e, last) == Concat(ObjectPieces(e, last))
  {
    hide Fields, MemberPieces, MembersText;
    var opening: Wide := W("  {\r\n");
    var closing: Wide := if last then W("  }\r\n") else W("  },\r\n");
    MembersConcat(Fields(e));
    ConcatAppend([opening], MemberPieces(Fields(e)));
    ConcatAppend([opening] + MemberPieces(Fields(e)), [closing]);
    ConcatOne(opening);
    ConcatOne(closing);
  }

  lemma ObjectFieldPieces(e: Event, last: bool)
    ensures var pieces := ObjectPieces(e, last);
      && (forall k :: 1 <= k <= 14 ==> pieces[k] == MemberText(Fields(e)[k - 1], k == 14))
      && pieces[0] == W("  {\r\n") && pieces[15] == if last then W("  }\r\n") else W("  },\r\n")
  {
    hide Fields, MemberText;
  }

  /** Every text of the event has a JSON form that one write can take. */
  ghost predicate Writable(e: Event) {
    forall k :: 0 <= k < 14 && Fields(e)[k].value.TextField? ==> |JsonString(Fields(e)[k].value.text)| <= INT_MAX
  }

  /** The loop body of write_json_export up to the PID. */
  method WriteJsonHead(file: ExportFile, ghost start: seq<Unit>, event: Event, last: bool) returns (ok: bool)
    requires Writing(start, file.contents, ObjectPieces(event, last), 0, true)
    modifies file
    ensures Writing(start, file.contents, ObjectPieces(event, last), 5, ok)
    ensures file.device.Reliable() && Writable(event) ==> ok
  {
    hide Written, Stopped, Wrote, JsonString, Concat, MemberText, ObjectPieces, W, FormatTimestamp, EventExportName,
      AlertSeverityName, Device.Reliable;
    ghost var pieces := ObjectPieces(event, last);
    ObjectFieldPieces(event, last);
    ok := file.WritePiece(start, pieces, 0, W("  {\r\n"));
    if ok {
      ok := WriteJsonField(file, start, pieces, 1, W("timestamp"), FormatTimestamp(event.timestamp), true);
    }
    if ok {
      ok := WriteJsonField(file, start, pieces, 2, W("event_type"), EventExportName(event.kind), true);
    }
    if ok {
      ok := WriteJsonField(file, start, pieces, 3, W("process_name"), event.processName, true);
    }
    if ok {
      ok := WriteJsonNumber(file, start, pieces, 4, W("pid"), event.process.pid);
    }
  }

  /** The loop body from the parent PID to the remote address. */
  method WriteJsonMiddle(file: ExportFile, ghost start: seq<Unit>, event: Event, last: bool) returns (ok: bool)
    requires Writing(start, file.contents, ObjectPieces(event, last), 5, true)
    modifies file
    ensures Writing(start, file.contents, ObjectPieces(event, last), 11, ok)
    ensures file.device.Reliable() && Writable(event) ==> ok
  {
    hide Written, Stopped, Wrote, JsonString, Concat, MemberText, ObjectPieces, W, FormatTimestamp, EventExportName,
      AlertSeverityName, Device.Reliable;
    ghost var pieces := ObjectPieces(event, last);
    ObjectFieldPieces(event, last);
    ok := WriteJsonNumber(file, start, pieces, 5, W("parent_pid"), event.parent.pid);
    if ok {
      ok := WriteJsonField(file, start, pieces, 6, W("details"), event.details, true);
    }
    if ok {
      ok := WriteJsonField(file, start, pieces, 7, W("protocol"), event.protocol, true);
    }
    if ok {
      ok := WriteJsonField(file, start, pieces, 8, W("local_address"), event.localAddress, true);
    }
    if ok {
      ok := WriteJsonNumber(file, start, pieces, 9, W("local_port"), event.localPort);
    }
    if ok {
      ok := WriteJsonField(file, start, pieces, 10, W("remote_address"), event.remoteAddress, true);
    }
  }

  /** The rest of the loop body. */
  method WriteJsonTail(file: ExportFile, ghost start: seq<Unit>, event: Event, last: bool) returns (ok: bool)
    requires Writing(start, file.contents, ObjectPieces(event, last), 11, true)
    modifies file
    ensures Writing(start, file.contents, ObjectPieces(event, last), 16, ok)
    ensures file.device.Reliable() && Writable(event) ==> ok
  {
    hide Written, Stopped, Wrote, JsonString, Concat, MemberText, ObjectPieces, W, FormatTimestamp, EventExportName,
      AlertSeverityName, Device.Reliable;
    ghost var pieces := ObjectPieces(event, last);
    ObjectFieldPieces(event, last);
    ok := WriteJsonNumber(file, start, pieces, 11, W("remote_port"), event.remotePort);
    if ok {
      ok := WriteJsonField(file, start, pieces, 12, W("state"), event.networkState, true);
    }
    if ok {
      ok := WriteJsonField(file, start, pieces, 13, W("severity"), AlertSeverityName(event.severity), true);
    }
    if ok {
      ok := WriteJsonField(file, start, pieces, 14, W("rule"), event.ruleName, false);
    }
    if ok {
      ok := file.WritePiece(start, pieces, 15, if last then W("  }\r\n") else W("  },\r\n"));
    }
  }

  /** The body of the loop in write_json_export. */
  method WriteJsonObject(file: ExportFile, event: Event, last: bool) returns (ok: bool)
    modifies file
    ensures Wrote(old(file.contents), file.contents, ObjectText(event, last), ok)
    ensures file.device.Reliable() && Writable(event) ==> ok
  {
    hide Written, Stopped, Wrote, Concat, ObjectText, ObjectPieces, Device.Reliable, Writable;
    ghost var start := file.contents;
    WritingStarts(start, ObjectPieces(event, last));
    ok := WriteJsonHead(file, start, event, last);
    if ok {
      ok := WriteJsonMiddle(file, start, event, last);
    }
    if ok {
      ok := WriteJsonTail(file, start, event, last);
    }
    WritingEnds(start, file.contents, ObjectPieces(event, last), ok);
    ObjectConcat(event, last);
  }

  // ---- the document ----

  function ObjectTexts(events: seq<Event>): (pieces: seq<Wide>)
    ensures |pieces| == |events|
  {
    seq(|events|, i requires 0 <= i < |events| => ObjectText(events[i], i == |events| - 1))
  }

  lemma {:induction false} ObjectsConcat(events: seq<Event>)
    ensures ObjectsText(events) == Concat(ObjectTexts(events))
  {
    hide ObjectText;
    if events == [] {
    } else {
      ObjectsConcat(events[1..]);
      ConcatOne(ObjectText(events[0], |events| == 1));
      ConcatAppend([ObjectText(events[0], |events| == 1)], ObjectTexts(events[1..]));
      assert ObjectTexts(events) == [ObjectText(events[0], |events| == 1)] + ObjectTexts(events[1..]);
    }
  }

  function DocumentPieces(events: seq<Event>): (pieces: seq<Wide>)
    ensures |pieces| == |events| + 2
  {
    [W("[\r\n")] + ObjectTexts(events) + [W("]\r\n")]
  }

  lemma DocumentPiecesAre(events: seq<Event>)
    ensures var pieces := DocumentPieces(events);
      && pieces[0] == W("[\r\n") && pieces[|events| + 1] == W("]\r\n")
      && forall i :: 0 < i <= |events| ==> pieces[i] == ObjectText(events[i - 1], i == |events|)
  {
    hide ObjectText, W;
  }

  lemma DocumentConcat(events: seq<Event>)
    ensures JsonDocument(events) == Concat(DocumentPieces(events))
  {
    hide ObjectTexts, ObjectsText, W;
    var opening: Wide := W("[\r\n");
    var closing: Wide := W("]\r\n");
    ObjectsConcat(events);
    ConcatOne(opening);
    ConcatOne(closing);
    ConcatAppend([opening], ObjectTexts(events));
    ConcatAppend([opening] + ObjectTexts(events), [closing]);
  }

  /** write_json_export: the document of the events from `firstEvent` on, or part of it on failure. */
  method WriteJsonExport(file: ExportFile, store: EventStore, firstEvent: nat) returns (ok: bool)
    requires store.Valid() && firstEvent <= store.eventCount
    modifies file
    ensures var events := store.events[firstEvent..store.eventCount];
      && Wrote(old(file.contents), file.contents, JsonDocument(events), ok)
      && (file.device.Reliable() && (forall i :: 0 <= i < |events| ==> Writable(events[i])) ==> ok)
  {
    hide Written, Stopped, Wrote, Concat, DocumentPieces, JsonDocument, ObjectText, Writable, W;
    ghost var events := store.events[firstEvent..store.eventCount];
    ghost var (start, pieces) := (file.contents, DocumentPieces(events));
    WritingStarts(start, pieces);
    DocumentPiecesAre(events);
    DocumentConcat(events);
    ok := file.WritePiece(start, pieces, 0, W("[\r\n"));
    if !ok {
      WritingEnds(start, file.contents, pieces, false);
      return;
    }
    for index := firstEvent to store.eventCount
      invariant Writing(start, file.contents, pieces, 1 + index - firstEvent, true)
    {
      ghost var before := file.contents;
      ok := WriteJsonObject(file, store.events[index], index + 1 == store.eventCount);
      assert events[index - firstEvent] == store.events[index];
      WriteStep(start, before, file.contents, pieces, 1 + index - firstEvent, ok);
      if !ok {
        WritingEnds(start, file.contents, pieces, false);
        return;
      }
    }
    ok := file.WritePiece(start, pieces, 1 + |events|, W("]\r\n"));
    WritingEnds(start, file.contents, pieces, ok);
  }
}
