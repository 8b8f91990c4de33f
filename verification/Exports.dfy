/** export_events_to_file (src/export.c) for its three formats: what a reported success promises
    about the file. */
module Exports {
  import opened WideStrings
  import opened Formatting
  import opened Events
  import opened EventStores
  import opened ExportFields
  import opened ExportFiles
  import CsvDocuments
  import CsvTexts
  import CsvWriters
  import ExportReading
  import JsonDocuments
  import JsonTexts
  import JsonWriters
  import TextExports

  datatype Format = JsonFormat | CsvFormat | TextFormat

  function Document(format: Format, events: seq<Event>): Wide {
    match format
    case JsonFormat => JsonDocuments.JsonDocument(events)
    case CsvFormat => CsvDocuments.CsvDocument(events)
    case TextFormat => TextExports.TextDocument(events)
  }

  /** The file reads back as the events: each of their values stands under its name, or in its place in
      the line, and the file holds nothing besides. */
  ghost predicate ReadsBack(format: Format, contents: seq<Unit>, events: seq<Event>) {
    match format
    case JsonFormat =>
      && ExportReading.JsonFile(contents, events)
      && JsonTexts.ParseText(contents) == Some(JsonTexts.Array(JsonDocuments.Objects(events)))
    case CsvFormat =>
      && ExportReading.CsvFile(contents, events)
      && contents != [] && contents[0] == CsvDocuments.BYTE_ORDER_MARK
      && CsvTexts.ParseText(contents[1..]) == Some([CsvDocuments.Names()] + CsvDocuments.Records(events))
    case TextFormat => ExportReading.TextFile(contents, events) && contents == TextExports.TextDocument(events)
  }

  lemma DocumentReadsBack(format: Format, events: seq<Event>)
    ensures ReadsBack(format, Document(format, events), events)
  {
    hide JsonDocuments.JsonDocument, CsvDocuments.CsvDocument, JsonTexts.ParseText, CsvTexts.ParseText,
      ExportReading.JsonFile, ExportReading.CsvFile, ExportReading.TextFile;
    match format
    case JsonFormat =>
      ExportReading.JsonReads(events);
      JsonDocuments.JsonRoundTrip(events);
    case CsvFormat =>
      ExportReading.CsvReads(events);
      CsvDocuments.CsvRoundTrip(events);
    case TextFormat => ExportReading.TextReads(events);
  }

  /** The texts of an event fit the buffers of a TraceGlassEvent. */
  predicate Buffered(e: Event) {
    && |e.processName| < DETAIL_LENGTH && |e.details| < DETAIL_LENGTH && |e.protocol| < DETAIL_LENGTH
    && |e.localAddress| < DETAIL_LENGTH && |e.remoteAddress| < DETAIL_LENGTH
    && |e.networkState| < DETAIL_LENGTH && |e.ruleName| < DETAIL_LENGTH
  }

  lemma TextsShort(e: Event, k: nat)
    requires Buffered(e) && k < 14
    ensures match Fields(e)[k].value
      case TextField(text) => |text| <= 50000
      case NumberField(number) => number < 0x1_0000_0000
  {
    hide FormatTimestamp, W;
    TextExports.TimestampShort(e.timestamp);
  }

  /** So every write of such an event is small enough for write_utf8. */
  lemma BufferedWritable(e: Event)
    requires Buffered(e)
    ensures JsonWriters.Writable(e) && CsvWriters.Writable(e)
  {
    hide Fields, Buffered, Decimal, JsonDocuments.Escaped, CsvDocuments.Doubled;
    forall k | 0 <= k < 14
      ensures Fields(e)[k].value.TextField? ==> |JsonDocuments.JsonString(Fields(e)[k].value.text)| <= INT_MAX
      ensures |CsvDocuments.CsvField(CsvDocuments.FieldText(Fields(e)[k]))| <= INT_MAX
    {
      TextsShort(e, k);
      if Fields(e)[k].value.NumberField? {
        JsonWriters.DecimalShort(Fields(e)[k].value.number);
      }
    }
  }

  /** export_events_to_file.  `device` is None when CreateFileW fails, and `closes` says whether
      CloseHandle succeeds.  Success means that the file reads back as the events from `firstEvent`
      on; failure leaves at most a part of their document; and nothing but the environment makes a
      valid call fail. */
  method ExportEventsToFile(store: EventStore, firstEvent: nat, format: Format, device: Option<Device>, closes: bool)
    returns (ok: bool, file: Option<ExportFile>)
    requires store.Valid()
    ensures ok ==> firstEvent <= store.eventCount && file.Some?
    ensures file.Some? ==> firstEvent <= store.eventCount
    ensures firstEvent <= store.eventCount ==>
      var events := store.events[firstEvent..store.eventCount];
      && (file.Some? ==> file.value.contents <= Document(format, events))
      && (ok ==> ReadsBack(format, file.value.contents, events))
      && (device.Some? && device.value.Reliable() && closes ==>
            (forall i :: 0 <= i < |events| ==> Buffered(events[i])) ==> ok)
  {
    hide ReadsBack, JsonDocuments.JsonDocument, CsvDocuments.CsvDocument, TextExports.TextDocument, Buffered,
      JsonWriters.Writable, CsvWriters.Writable, Device.Reliable;
    if firstEvent > store.eventCount || device == None {
      return false, None;
    }
    ghost var events := store.events[firstEvent..store.eventCount];
    DocumentReadsBack(format, events);
    forall i | 0 <= i < |events| && Buffered(events[i])
      ensures JsonWriters.Writable(events[i]) && CsvWriters.Writable(events[i])
    {
      BufferedWritable(events[i]);
    }
    var created := new ExportFile(device.value);
    match format {
      case JsonFormat => ok := JsonWriters.WriteJsonExport(created, store, firstEvent);
      case CsvFormat => ok := CsvWriters.WriteCsvExport(created, store, firstEvent);
      case TextFormat => ok := TextExports.WriteTextExport(created, store, firstEvent);
    }
    assert [] + Document(format, events) == Document(format, events);
    return ok && closes, Some(created);
  }
}
