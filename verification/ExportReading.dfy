/** What a reader of an exported file finds in it: the values under the 14 names of each event, in either
    structured format, and the parts of each line of a text file (src/export.c). */
module ExportReading {
  import opened WideStrings
  import opened Formatting
  import opened Events
  import opened ExportFields
  import C = CsvTexts
  import J = JsonTexts
  import CsvDocuments
  import ExportFiles
  import JsonDocuments
  import TextExports

  // ---- numbers between marks ----

  /** Runs of digits, one before each of the marks and one after the last, and nothing else. */
  function ReadNumbers(text: seq<Unit>, marks: seq<Unit>): Option<seq<nat>>
    decreases |marks|
  {
    var n := J.CountDigits(text);
    if n == 0 then None
    else if marks == [] then (if n == |text| then Some([DigitsValue(text)]) else None)
    else if n == |text| || text[n] != marks[0] then None
    else
      match ReadNumbers(text[n + 1..], marks[1..])
      case None => None
      case Some(numbers) => Some([DigitsValue(text[..n])] + numbers)
  }

  lemma ReadLast(digits: seq<Unit>)
    requires digits != [] && AllDigits(digits)
    ensures ReadNumbers(digits, []) == Some([DigitsValue(digits)])
  {
    JsonDocuments.CountRun(digits, []);
    assert digits + [] == digits;
  }

  lemma ReadNext(digits: seq<Unit>, mark: Unit, more: seq<Unit>, marks: seq<Unit>)
    requires digits != [] && AllDigits(digits) && !IsDigit(mark) && ReadNumbers(more, marks).Some?
    ensures ReadNumbers(digits + ([mark] + more), [mark] + marks) ==
      Some([DigitsValue(digits)] + ReadNumbers(more, marks).value)
  {
    var text := digits + ([mark] + more);
    JsonDocuments.CountRun(digits, [mark] + more);
    assert text[..|digits|] == digits && text[|digits| + 1..] == more && text[|digits|] == mark;
    assert ([mark] + marks)[1..] == marks;
  }

  lemma ReadPadded(n: nat, width: nat, mark: Unit, more: seq<Unit>, marks: seq<Unit>)
    requires width > 0 && !IsDigit(mark) && ReadNumbers(more, marks).Some?
    ensures ReadNumbers(Padded(n, width) + ([mark] + more), [mark] + marks) ==
      Some([n] + ReadNumbers(more, marks).value)
  {
    hide Padded, ReadNumbers, DigitsValue;
    PaddedValue(n, width);
    ReadNext(Padded(n, width), mark, more, marks);
  }

  /** Year, month, day, hour, minute, second and milliseconds, in this order. */
  ghost predicate IsTimestamp(text: seq<Unit>, t: SystemTime) {
    ReadNumbers(text, W("--T::.")) == Some([t.year, t.month, t.day, t.hour, t.minute, t.second, t.milliseconds])
  }

  const DASH: Unit := 0x2D
  const COLON: Unit := 0x3A
  const POINT: Unit := 0x2E
  const TEE: Unit := 0x54

  /** The part of a timestamp after its T. */
  function TimeOfDay(t: SystemTime): Wide {
    Padded(t.hour, 2) + ([COLON] + (Padded(t.minute, 2) + ([COLON] + (Padded(t.second, 2) + ([POINT] +
    Padded(t.milliseconds, 3))))))
  }

  lemma TimeOfDayReads(t: SystemTime)
    ensures ReadNumbers(TimeOfDay(t), [COLON, COLON, POINT]) == Some([t.hour, t.minute, t.second, t.milliseconds])
  {
    hide Padded, ReadNumbers, DigitsValue;
    var millis := Padded(t.milliseconds, 3);
    var second := Padded(t.second, 2) + ([POINT] + millis);
    var minute := Padded(t.minute, 2) + ([COLON] + second);
    PaddedValue(t.milliseconds, 3);
    ReadLast(millis);
    ReadPadded(t.second, 2, POINT, millis, []);
    assert [POINT] + [] == [POINT] && [COLON] + [POINT] == [COLON, POINT];
    ReadPadded(t.minute, 2, COLON, second, [POINT]);
    ReadPadded(t.hour, 2, COLON, minute, [COLON, POINT]);
    assert [COLON] + [COLON, POINT] == [COLON, COLON, POINT];
    assert [t.hour] + ([t.minute] + ([t.second] + [t.milliseconds])) == [t.hour, t.minute, t.second, t.milliseconds];
  }

  lemma DateReads(t: SystemTime, rest: seq<Unit>, marks: seq<Unit>)
    requires ReadNumbers(rest, marks).Some?
    ensures ReadNumbers(Padded(t.year, 4) + ([DASH] + (Padded(t.month, 2) + ([DASH] + (Padded(t.day, 2) + ([TEE] +
      rest))))), [DASH, DASH, TEE] + marks) == Some([t.year, t.month, t.day] + ReadNumbers(rest, marks).value)
  {
    hide Padded, ReadNumbers, DigitsValue;
    var day := Padded(t.day, 2) + ([TEE] + rest);
    var month := Padded(t.month, 2) + ([DASH] + day);
    ReadPadded(t.day, 2, TEE, rest, marks);
    ReadPadded(t.month, 2, DASH, day, [TEE] + marks);
    ReadPadded(t.year, 4, DASH, month, [DASH] + ([TEE] + marks));
    assert [DASH] + ([DASH] + ([TEE] + marks)) == [DASH, DASH, TEE] + marks;
    var numbers := ReadNumbers(rest, marks).value;
    assert [t.year] + ([t.month] + ([t.day] + numbers)) == [t.year, t.month, t.day] + numbers;
  }

  lemma TimestampSplits(t: SystemTime)
    ensures FormatTimestamp(t) ==
      Padded(t.year, 4) + ([DASH] + (Padded(t.month, 2) + ([DASH] + (Padded(t.day, 2) + ([TEE] + TimeOfDay(t))))))
  {
    hide Padded, W;
    Marks();
  }

  lemma Marks()
    ensures W("-") == [DASH] && W("T") == [TEE] && W(":") == [COLON] && W(".") == [POINT]
    ensures W("--T::.") == [DASH, DASH, TEE] + [COLON, COLON, POINT]
  {
  }

  /** A formatted timestamp reads back as the parts of the time, whatever their values. */
  lemma TimestampReads(t: SystemTime)
    ensures IsTimestamp(FormatTimestamp(t), t)
  {
    hide FormatTimestamp, TimeOfDay, ReadNumbers, Padded, W;
    Marks();
    TimestampSplits(t);
    TimeOfDayReads(t);
    DateReads(t, TimeOfDay(t), [COLON, COLON, POINT]);
    assert [t.year, t.month, t.day] + [t.hour, t.minute, t.second, t.milliseconds] ==
      [t.year, t.month, t.day, t.hour, t.minute, t.second, t.milliseconds];
  }

  // ---- words ----

  function TypeOfWord(word: seq<Unit>): Option<EventType> {
    if word == W("process_start") then Some(ProcessStart)
    else if word == W("process_stop") then Some(ProcessStop)
    else if word == W("network_connection") then Some(Network)
    else if word == W("file") then Some(File)
    else if word == W("registry") then Some(Registry)
    else if word == W("alert") then Some(Alert)
    else None
  }

  function SeverityOfWord(word: seq<Unit>): Option<Severity> {
    if word == W("NONE") then Some(NoSeverity)
    else if word == W("INFO") then Some(Info)
    else if word == W("LOW") then Some(Low)
    else if word == W("MEDIUM") then Some(Medium)
    else if word == W("HIGH") then Some(High)
    else None
  }

  function TypeOfTitle(title: seq<Unit>): Option<EventType> {
    if title == W("PROCESS START") then Some(ProcessStart)
    else if title == W("PROCESS STOP") then Some(ProcessStop)
    else if title == W("NETWORK") then Some(Network)
    else if title == W("FILE") then Some(File)
    else if title == W("REGISTRY") then Some(Registry)
    else if title == W("ALERT") then Some(Alert)
    else None
  }

  lemma TypeReads(kind: EventType)
    ensures TypeOfWord(EventExportName(kind)) == Some(kind)
  {
  }

  lemma TitleReads(kind: EventType)
    ensures TypeOfTitle(EventTypeName(kind)) == Some(kind)
  {
  }

  lemma SeverityReads(severity: Severity)
    ensures SeverityOfWord(AlertSeverityName(severity)) == Some(severity)
  {
    assert W("NONE")[0] == 0x4E && W("INFO")[0] == 0x49 && W("HIGH")[0] == 0x48;
    assert |W("LOW")| == 3 && |W("MEDIUM")| == 6;
  }

  /** Every exported word reads back. */
  lemma WordsRead(kind: EventType, severity: Severity)
    ensures TypeOfWord(EventExportName(kind)) == Some(kind)
    ensures SeverityOfWord(AlertSeverityName(severity)) == Some(severity)
    ensures TypeOfTitle(EventTypeName(kind)) == Some(kind)
  {
    hide TypeOfWord, TypeOfTitle, SeverityOfWord, EventExportName, EventTypeName, AlertSeverityName;
    TypeReads(kind);
    TitleReads(kind);
    SeverityReads(severity);
  }

  // ---- fields by name ----

  /** Where the name stands. */
  function Find(names: seq<seq<Unit>>, name: seq<Unit>): (r: Option<nat>)
    ensures r.Some? ==> r.value < |names| && names[r.value] == name
  {
    if names == [] then None
    else if names[0] == name then Some(0)
    else match Find(names[1..], name) case None => None case Some(i) => Some(i + 1)
  }

  /** The value of the member of this name in a JSON object. */
  function Member(v: J.Json, name: seq<Unit>): Option<J.Json> {
    if !v.Object? then None
    else
      match Find(seq(|v.members|, i requires 0 <= i < |v.members| => v.members[i].0), name)
      case None => None
      case Some(i) => Some(v.members[i].1)
  }

  /** The text of a CSV record in the column of this name. */
  function Cell(header: C.Fields, record: C.Fields, name: seq<Unit>): Option<seq<Unit>> {
    match Find(header, name)
    case None => None
    case Some(i) => if i < |record| then Some(record[i]) else None
  }

  predicate TextMember(v: J.Json, name: seq<Unit>, text: seq<Unit>) { Member(v, name) == Some(J.String(text)) }

  predicate NumberMember(v: J.Json, name: seq<Unit>, n: nat) { Member(v, name) == Some(J.Number(n, 0)) }

  /** A JSON object that reports the event: 14 members, each with the event's own value under its name. */
  ghost predicate JsonReports(v: J.Json, e: Event) {
    && v.Object? && |v.members| == 14
    && (exists text :: TextMember(v, W("timestamp"), text) && IsTimestamp(text, e.timestamp))
    && (exists word :: TextMember(v, W("event_type"), word) && TypeOfWord(word) == Some(e.kind))
    && TextMember(v, W("process_name"), e.processName)
    && NumberMember(v, W("pid"), e.process.pid)
    && NumberMember(v, W("parent_pid"), e.parent.pid)
    && TextMember(v, W("details"), e.details)
    && TextMember(v, W("protocol"), e.protocol)
    && TextMember(v, W("local_address"), e.localAddress)
    && NumberMember(v, W("local_port"), e.localPort)
    && TextMember(v, W("remote_address"), e.remoteAddress)
    && NumberMember(v, W("remote_port"), e.remotePort)
    && TextMember(v, W("state"), e.networkState)
    && (exists word :: TextMember(v, W("severity"), word) && SeverityOfWord(word) == Some(e.severity))
    && TextMember(v, W("rule"), e.ruleName)
  }

  /** A CSV record that reports the event: 14 texts, each the event's own value in its column. */
  ghost predicate CsvReports(header: C.Fields, record: C.Fields, e: Event) {
    && |header| == |record| == 14
    && (exists text :: Cell(header, record, W("timestamp")) == Some(text) && IsTimestamp(text, e.timestamp))
    && (exists word :: Cell(header, record, W("event_type")) == Some(word) && TypeOfWord(word) == Some(e.kind))
    && Cell(header, record, W("process_name")) == Some(e.processName)
    && Cell(header, record, W("pid")) == Some(Decimal(e.process.pid))
    && Cell(header, record, W("parent_pid")) == Some(Decimal(e.parent.pid))
    && Cell(header, record, W("details")) == Some(e.details)
    && Cell(header, record, W("protocol")) == Some(e.protocol)
    && Cell(header, record, W("local_address")) == Some(e.localAddress)
    && Cell(header, record, W("local_port")) == Some(Decimal(e.localPort))
    && Cell(header, record, W("remote_address")) == Some(e.remoteAddress)
    && Cell(header, record, W("remote_port")) == Some(Decimal(e.remotePort))
    && Cell(header, record, W("state")) == Some(e.networkState)
    && (exists word :: Cell(header, record, W("severity")) == Some(word) && SeverityOfWord(word) == Some(e.severity))
    && Cell(header, record, W("rule")) == Some(e.ruleName)
  }

  /** A line of a text file that reports the event, in a buffer of 1536 units. */
  ghost predicate LineReports(line: Wide, e: Event) {
    exists stamp: Wide, title: Wide :: LineOf(line, stamp, title, e)
  }

  ghost predicate LineOf(line: Wide, stamp: Wide, title: Wide, e: Event) {
    && IsTimestamp(stamp, e.timestamp) && TypeOfTitle(title) == Some(e.kind)
    && line == Truncated(
         stamp + W(" | ") + title + W(" | ") + e.processName + W(" | PID ") + Decimal(e.process.pid) +
         W(" | Parent PID ") + Decimal(e.parent.pid) + W(" | ") + e.details + W("\r\n"), 1536)
  }

  // ---- each exported field stands under its own name ----

  /** The names are told apart by their length and first letter. */
  lemma NameMarks(e: Event)
    ensures forall i, j :: 0 <= i < j < 14 ==> Fields(e)[i].name != Fields(e)[j].name
  {
    hide FormatTimestamp, EventExportName, AlertSeverityName;
    var f := Fields(e);
    assert |f[0].name| == 9 && |f[1].name| == 10 && |f[2].name| == 12 && |f[3].name| == 3 && |f[4].name| == 10;
    assert |f[5].name| == 7 && |f[6].name| == 8 && |f[7].name| == 13 && |f[8].name| == 10 && |f[9].name| == 14;
    assert |f[10].name| == 11 && |f[11].name| == 5 && |f[12].name| == 8 && |f[13].name| == 4;
    assert f[1].name[0] == 0x65 && f[4].name[0] == 0x70 && f[8].name[0] == 0x6C;
    assert f[6].name[0] == 0x70 && f[12].name[0] == 0x73;
  }

  lemma {:induction false} FindAt(names: seq<seq<Unit>>, k: nat)
    requires k < |names| && forall i :: 0 <= i < k ==> names[i] != names[k]
    ensures Find(names, names[k]) == Some(k)
  {
    if k == 0 {
    } else {
      FindAt(names[1..], k - 1);
    }
  }

  /** The names of the fields do not depend on the event. */
  lemma SameNames(a: Event, b: Event, k: nat)
    requires k < 14
    ensures Fields(a)[k].name == Fields(b)[k].name
  {
    hide W, FormatTimestamp, EventExportName, AlertSeverityName;
  }

  lemma JsonField(e: Event, k: nat)
    requires k < 14
    ensures Member(JsonDocuments.ObjectOf(e), Fields(e)[k].name) == Some(JsonDocuments.Meaning(Fields(e)[k].value))
  {
    hide Fields, Find, JsonDocuments.Meaning;
    var members := JsonDocuments.Members(Fields(e));
    var names := seq(|members|, i requires 0 <= i < |members| => members[i].0);
    NameMarks(e);
    assert forall i :: 0 <= i < 14 ==> names[i] == Fields(e)[i].name;
    FindAt(names, k);
  }

  lemma CsvField(e: Event, k: nat)
    requires k < 14
    ensures Cell(CsvDocuments.Names(), CsvDocuments.Texts(e), Fields(e)[k].name) ==
      Some(CsvDocuments.FieldText(Fields(e)[k]))
  {
    hide Fields, Find, CsvDocuments.FieldText;
    NameMarks(NO_EVENT);
    SameNames(e, NO_EVENT, k);
    FindAt(CsvDocuments.Names(), k);
  }

  /** The object written for an event reports it. */
  lemma ObjectReports(e: Event)
    ensures JsonReports(JsonDocuments.ObjectOf(e), e)
  {
    hide W, FormatTimestamp, EventExportName, AlertSeverityName, Member, IsTimestamp, TypeOfWord, SeverityOfWord;
    var v := JsonDocuments.ObjectOf(e);
    forall k | 0 <= k < 14
      ensures Member(v, Fields(e)[k].name) == Some(JsonDocuments.Meaning(Fields(e)[k].value))
    {
      JsonField(e, k);
    }
    TimestampReads(e.timestamp);
    WordsRead(e.kind, e.severity);
    var f := Fields(e);
    assert Member(v, f[0].name) == Some(J.String(FormatTimestamp(e.timestamp)));
    assert Member(v, f[1].name) == Some(J.String(EventExportName(e.kind)));
    assert Member(v, f[12].name) == Some(J.String(AlertSeverityName(e.severity)));
    assert Member(v, f[2].name).Some? && Member(v, f[3].name).Some? && Member(v, f[4].name).Some?;
    assert Member(v, f[5].name).Some? && Member(v, f[6].name).Some? && Member(v, f[7].name).Some?;
    assert Member(v, f[8].name).Some? && Member(v, f[9].name).Some? && Member(v, f[10].name).Some?;
    assert Member(v, f[11].name).Some? && Member(v, f[13].name).Some?;
    assert TextMember(v, W("timestamp"), FormatTimestamp(e.timestamp));
    assert TextMember(v, W("event_type"), EventExportName(e.kind));
    assert TextMember(v, W("severity"), AlertSeverityName(e.severity));
  }

  /** The record written for an event reports it. */
  lemma RecordReports(e: Event)
    ensures CsvReports(CsvDocuments.Names(), CsvDocuments.Texts(e), e)
  {
    hide W, FormatTimestamp, EventExportName, AlertSeverityName, Cell, IsTimestamp, TypeOfWord, SeverityOfWord, Decimal,
      CsvDocuments.Names, CsvDocuments.Texts;
    var (h, t) := (CsvDocuments.Names(), CsvDocuments.Texts(e));
    forall k | 0 <= k < 14
      ensures Cell(h, t, Fields(e)[k].name) == Some(CsvDocuments.FieldText(Fields(e)[k]))
    {
      CsvField(e, k);
    }
    TimestampReads(e.timestamp);
    WordsRead(e.kind, e.severity);
    var f := Fields(e);
    assert Cell(h, t, f[0].name) == Some(FormatTimestamp(e.timestamp));
    assert Cell(h, t, f[1].name) == Some(EventExportName(e.kind));
    assert Cell(h, t, f[12].name) == Some(AlertSeverityName(e.severity));
    assert Cell(h, t, f[2].name).Some? && Cell(h, t, f[3].name).Some? && Cell(h, t, f[4].name).Some?;
    assert Cell(h, t, f[5].name).Some? && Cell(h, t, f[6].name).Some? && Cell(h, t, f[7].name).Some?;
    assert Cell(h, t, f[8].name).Some? && Cell(h, t, f[9].name).Some? && Cell(h, t, f[10].name).Some?;
    assert Cell(h, t, f[11].name).Some? && Cell(h, t, f[13].name).Some?;
  }

  /** The line written for an event reports it. */
  lemma TextLineReports(e: Event)
    ensures LineReports(TextExports.TextLine(e), e)
  {
    hide W, FormatTimestamp, EventTypeName, IsTimestamp, TypeOfTitle, Decimal, Truncated;
    TimestampReads(e.timestamp);
    WordsRead(e.kind, e.severity);
    assert LineOf(TextExports.TextLine(e), FormatTimestamp(e.timestamp), EventTypeName(e.kind), e);
  }

  // ---- whole files ----

  /** A JSON text whose parse is an array of one object per event, in order, each reporting its event. */
  ghost predicate JsonFile(contents: seq<Unit>, events: seq<Event>) {
    match J.ParseText(contents)
    case Some(Array(objects)) =>
      |objects| == |events| && forall i :: 0 <= i < |events| ==> JsonReports(objects[i], events[i])
    case _ => false
  }

  /** A byte order mark, and a CSV text of a header and one record per event, in order. */
  ghost predicate CsvFile(contents: seq<Unit>, events: seq<Event>) {
    contents != [] && contents[0] == 0xFEFF &&
    match C.ParseText(contents[1..])
    case Some(records) =>
      && |records| == 1 + |events|
      && forall i :: 0 <= i < |events| ==> CsvReports(records[0], records[1 + i], events[i])
    case None => false
  }

  /** A byte order mark and one line per event, in order. */
  ghost predicate TextFile(contents: seq<Unit>, events: seq<Event>) {
    exists lines: seq<Wide> :: LinesOf(contents, lines, events)
  }

  ghost predicate LinesOf(contents: seq<Unit>, lines: seq<Wide>, events: seq<Event>) {
    && |lines| == |events| && contents == [0xFEFF] + ExportFiles.Concat(lines)
    && forall i :: 0 <= i < |events| ==> LineReports(lines[i], events[i])
  }

  lemma JsonReads(events: seq<Event>)
    ensures JsonFile(JsonDocuments.JsonDocument(events), events)
  {
    hide J.ParseText, JsonDocuments.JsonDocument, JsonReports, JsonDocuments.ObjectOf;
    JsonDocuments.JsonRoundTrip(events);
    forall i | 0 <= i < |events| ensures JsonReports(JsonDocuments.Objects(events)[i], events[i]) {
      ObjectReports(events[i]);
    }
  }

  lemma CsvReads(events: seq<Event>)
    ensures CsvFile(CsvDocuments.CsvDocument(events), events)
  {
    hide C.ParseText, CsvDocuments.CsvDocument, CsvReports, CsvDocuments.Names, CsvDocuments.Texts;
    CsvDocuments.CsvRoundTrip(events);
    forall i | 0 <= i < |events|
      ensures CsvReports(CsvDocuments.Names(), CsvDocuments.Records(events)[i], events[i])
    {
      RecordReports(events[i]);
    }
  }

  lemma TextReads(events: seq<Event>)
    ensures TextFile(TextExports.TextDocument(events), events)
  {
    hide TextExports.TextLine, TextExports.TextLines, LineReports;
    TextExports.LinesConcat(events);
    forall i | 0 <= i < |events| ensures LineReports(TextExports.Lines(events)[i], events[i]) {
      TextLineReports(events[i]);
    }
    assert LinesOf(TextExports.TextDocument(events), TextExports.Lines(events), events);
  }
}
