/** The CSV document of an export (write_csv_export in src/export.c) and its round trip through the
    grammar of RFC 4180. */
module CsvDocuments {
  import opened WideStrings
  import opened Formatting
  import opened Events
  import opened ExportFields
  import C = CsvTexts

  /** The byte order mark; its UTF-8 form is EF BB BF. */
  const BYTE_ORDER_MARK: Wchar := 0xFEFF
  const SEPARATOR := W(",")

  // ---- the text ----

  function DoubledUnit(u: Wchar): Wide { if u == 0x22 then [0x22, 0x22] else [u] }

  function Doubled(s: Wide): (text: Wide)
    ensures |s| <= |text| <= 2 * |s|
  {
    if s == [] then [] else Doubled(s[..|s| - 1]) + DoubledUnit(s[|s| - 1])
  }

  function CsvField(s: Wide): Wide { [C.QUOTE] + Doubled(s) + [C.QUOTE] }

  function FieldEnd(last: bool): Wide { if last then LINE_END else SEPARATOR }

  /** Written fields with a comma between them and a line break after the last. */
  function Joined(parts: seq<Wide>): Wide {
    if parts == [] then [] else parts[0] + FieldEnd(|parts| == 1) + Joined(parts[1..])
  }

  function Quoted(texts: seq<Wide>): (parts: seq<Wide>)
    ensures |parts| == |texts|
  {
    seq(|texts|, i requires 0 <= i < |texts| => CsvField(texts[i]))
  }

  function RecordText(e: Event): Wide { Joined(Quoted(Texts(e))) }

  function FieldText(f: Field): Wide {
    match f.value case TextField(text) => text case NumberField(number) => Decimal(number)
  }

  /** The 14 texts of an event. */
  function Texts(e: Event): (texts: seq<Wide>)
    ensures |texts| == 14
  {
    seq(14, i requires 0 <= i < 14 => FieldText(Fields(e)[i]))
  }

  /** The column names, those of the fields. */
  function Names(): (names: seq<Wide>)
    ensures |names| == 14
  {
    seq(14, i requires 0 <= i < 14 => Fields(NO_EVENT)[i].name)
  }

  /** The header line: the names, unquoted. */
  function Header(): Wide { Joined(Names()) }

  function RecordsText(events: seq<Event>): Wide {
    if events == [] then [] else RecordText(events[0]) + RecordsText(events[1..])
  }

  /** The document write_csv_export writes for these events. */
  function CsvDocument(events: seq<Event>): Wide { [BYTE_ORDER_MARK] + Header() + RecordsText(events) }

  function Records(events: seq<Event>): (records: seq<C.Fields>)
    ensures |records| == |events|
  {
    seq(|events|, i requires 0 <= i < |events| => Texts(events[i]))
  }

  // ---- fields ----

  lemma DoubledLast(s: Wide)
    requires s != []
    ensures Doubled(s) == Doubled(s[..|s| - 1]) + DoubledUnit(s[|s| - 1])
  {
    hide DoubledUnit;
  }

  lemma NothingDoubled()
    ensures Doubled([]) == []
  {
  }

  lemma {:induction false} DoubledFront(s: Wide)
    requires s != []
    ensures Doubled(s) == DoubledUnit(s[0]) + Doubled(s[1..])
  {
    hide Doubled, DoubledUnit;
    var n := |s| - 1;
    DoubledLast(s);
    if n == 0 {
      NothingDoubled();
      assert s[..n] == [] && s[1..] == [];
      assert [] + DoubledUnit(s[0]) == DoubledUnit(s[0]) + [];
    } else {
      DoubledFront(s[..n]);
      DoubledLast(s[1..]);
      assert s[1..][..n - 1] == s[..n][1..];
      var middle := Doubled(s[..n][1..]);
      assert (DoubledUnit(s[0]) + middle) + DoubledUnit(s[n]) == DoubledUnit(s[0]) + (middle + DoubledUnit(s[n]));
    }
  }

  lemma UnitReads(u: Wchar, more: seq<Unit>)
    ensures C.ParseQuoted(DoubledUnit(u) + more) ==
      match C.ParseQuoted(more)
      case None => None
      case Some((text, rest)) => Some(([u] + text, rest))
  {
    var all := DoubledUnit(u) + more;
    assert (if u == C.QUOTE then all[2..] else all[1..]) == more;
  }

  lemma EndReads(rest: seq<Unit>)
    requires rest == [] || rest[0] != C.QUOTE
    ensures C.ParseQuoted(Doubled([]) + [C.QUOTE] + rest) == Some(([], rest))
  {
    assert Doubled([]) + [C.QUOTE] + rest == [C.QUOTE] + rest;
  }

  /** Every text reads back from its quoted form, provided no further quote follows it. */
  lemma {:induction false} QuotedRoundTrip(s: Wide, rest: seq<Unit>)
    requires rest == [] || rest[0] != C.QUOTE
    ensures C.ParseQuoted(Doubled(s) + [C.QUOTE] + rest) == Some((s, rest))
  {
    hide C.ParseQuoted, Doubled, DoubledUnit;
    if s == [] {
      EndReads(rest);
    } else {
      DoubledFront(s);
      var more := Doubled(s[1..]) + [C.QUOTE] + rest;
      assert Doubled(s) + [C.QUOTE] + rest == DoubledUnit(s[0]) + more;
      UnitReads(s[0], more);
      QuotedRoundTrip(s[1..], rest);
      assert s == [s[0]] + s[1..];
    }
  }

  /** The delimiter that follows a field. */
  predicate EndsField(rest: seq<Unit>) { rest != [] && (rest[0] == C.COMMA || rest[0] == C.CR) }

  lemma FieldRoundTrip(s: Wide, rest: seq<Unit>)
    requires EndsField(rest)
    ensures C.ParseField(CsvField(s) + rest) == Some((s, rest))
  {
    hide C.ParseQuoted, Doubled;
    QuotedRoundTrip(s, rest);
    assert (CsvField(s) + rest)[1..] == Doubled(s) + [C.QUOTE] + rest;
  }

  /** A name that needs no quotes. */
  predicate Plain(s: Wide) { forall i :: 0 <= i < |s| ==> C.IsText(s[i]) }

  /** The written field is read back as the text, whatever delimiter follows. */
  ghost predicate ReadsAs(part: Wide, text: Wide) {
    forall rest: seq<Unit> | EndsField(rest) :: C.ParseField(part + rest) == Some((text, rest))
  }

  lemma PlainReads(s: Wide)
    requires Plain(s)
    ensures ReadsAs(s, s)
  {
    forall rest: seq<Unit> | EndsField(rest) ensures C.ParseField(s + rest) == Some((s, rest)) {
      var n := C.CountText(s + rest);
      assert (s + rest)[|s|] == rest[0];
      assert forall i :: 0 <= i < |s| ==> (s + rest)[i] == s[i];
      assert n == |s|;
      assert (s + rest)[..n] == s && (s + rest)[n..] == rest;
    }
  }

  lemma QuotedReads(s: Wide)
    ensures ReadsAs(CsvField(s), s)
  {
    forall rest: seq<Unit> | EndsField(rest) ensures C.ParseField(CsvField(s) + rest) == Some((s, rest)) {
      FieldRoundTrip(s, rest);
    }
  }

  // ---- records ----

  lemma LastField(s: seq<Unit>, field: seq<Unit>, rest: seq<Unit>)
    requires C.ParseField(s) == Some((field, LINE_END + rest))
    ensures C.ParseRecord(s) == Some(([field], rest))
  {
    hide C.ParseField;
  }

  lemma NextField(s: seq<Unit>, field: seq<Unit>, more: seq<Unit>, fields: C.Fields, rest: seq<Unit>)
    requires C.ParseField(s) == Some((field, SEPARATOR + more)) && C.ParseRecord(more) == Some((fields, rest))
    ensures C.ParseRecord(s) == Some(([field] + fields, rest))
  {
    hide C.ParseField;
  }

  lemma PartThenEnd(part: Wide, text: Wide, last: bool, more: seq<Unit>)
    requires ReadsAs(part, text)
    ensures C.ParseField(part + (FieldEnd(last) + more)) == Some((text, FieldEnd(last) + more))
  {
  }

  /** A joined record reads back as the texts its fields stand for. */
  lemma {:induction false} JoinedRoundTrip(parts: seq<Wide>, texts: seq<Wide>, rest: seq<Unit>)
    requires |parts| == |texts| > 0 && forall i :: 0 <= i < |parts| ==> ReadsAs(parts[i], texts[i])
    ensures C.ParseRecord(Joined(parts) + rest) == Some((texts, rest))
  {
    hide C.ParseField, C.ParseRecord, ReadsAs, FieldEnd;
    var later := Joined(parts[1..]) + rest;
    var s := Joined(parts) + rest;
    assert s == parts[0] + (FieldEnd(|parts| == 1) + later);
    PartThenEnd(parts[0], texts[0], |parts| == 1, later);
    EndTexts();
    if |parts| == 1 {
      assert later == rest && texts == [texts[0]];
      LastField(s, texts[0], rest);
    } else {
      JoinedRoundTrip(parts[1..], texts[1..], rest);
      NextField(s, texts[0], later, texts[1..], rest);
      assert texts == [texts[0]] + texts[1..];
    }
  }

  lemma EndTexts()
    ensures FieldEnd(true) == LINE_END && FieldEnd(false) == SEPARATOR
  {
  }

  lemma RecordRoundTrip(e: Event, rest: seq<Unit>)
    ensures C.ParseRecord(RecordText(e) + rest) == Some((Texts(e), rest))
  {
    hide C.ParseRecord, ReadsAs, Joined, CsvField, Texts;
    forall i | 0 <= i < 14 ensures ReadsAs(Quoted(Texts(e))[i], Texts(e)[i]) {
      QuotedReads(Texts(e)[i]);
    }
    JoinedRoundTrip(Quoted(Texts(e)), Texts(e), rest);
  }

  // ---- the document ----

  lemma PlainName(name: string)
    requires forall k :: 0 <= k < |name| ==> 'a' <= name[k] <= 'z' || name[k] == '_'
    ensures ReadsAs(W(name), W(name))
  {
    hide C.ParseField, ReadsAs;
    PlainReads(W(name));
  }

  lemma NamesRead()
    ensures forall i :: 0 <= i < 14 ==> ReadsAs(Names()[i], Names()[i])
  {
    hide FormatTimestamp, EventExportName, AlertSeverityName, ReadsAs, W;
    PlainName("timestamp");
    PlainName("event_type");
    PlainName("process_name");
    PlainName("pid");
    PlainName("parent_pid");
    PlainName("details");
    PlainName("protocol");
    PlainName("local_address");
    PlainName("local_port");
    PlainName("remote_address");
    PlainName("remote_port");
    PlainName("state");
    PlainName("severity");
    PlainName("rule");
  }

  lemma {:induction false} RecordsRoundTrip(events: seq<Event>)
    ensures C.ParseText(RecordsText(events)) == Some(Records(events))
  {
    hide C.ParseRecord, RecordText, Texts;
    if events == [] {
    } else {
      RecordsRoundTrip(events[1..]);
      RecordRoundTrip(events[0], RecordsText(events[1..]));
      assert Records(events) == [Texts(events[0])] + Records(events[1..]);
      RecordNotEmpty(events[0], RecordsText(events[1..]));
    }
  }

  lemma RecordNotEmpty(e: Event, rest: seq<Unit>)
    ensures RecordText(e) + rest != []
  {
    hide Texts, CsvField;
  }

  /** After the byte order mark, a parser of RFC 4180 reads the document of any events back as the
      header and one record of 14 texts per event, in order, whatever quotes, commas and line breaks
      the texts hold. */
  lemma CsvRoundTrip(events: seq<Event>)
    ensures CsvDocument(events) != [] && CsvDocument(events)[0] == BYTE_ORDER_MARK
    ensures C.ParseText(CsvDocument(events)[1..]) == Some([Names()] + Records(events))
  {
    hide C.ParseRecord, RecordsText, Names, Joined, ReadsAs;
    assert CsvDocument(events)[1..] == Header() + RecordsText(events);
    NamesRead();
    JoinedRoundTrip(Names(), Names(), RecordsText(events));
    RecordsRoundTrip(events);
    HeaderNotEmpty(RecordsText(events));
  }

  lemma HeaderNotEmpty(rest: seq<Unit>)
    ensures Header() + rest != []
  {
    hide Names;
  }

  /** So documents determine what was exported. */
  lemma CsvDocumentsIdentify(a: seq<Event>, b: seq<Event>)
    requires CsvDocument(a) == CsvDocument(b)
    ensures |a| == |b|
    ensures forall i :: 0 <= i < |a| ==>
      a[i] == b[i].(sequence := a[i].sequence, process := ProcessKey(b[i].process.pid, a[i].process.creationTime),
                    parent := ProcessKey(b[i].parent.pid, a[i].parent.creationTime),
                    parentName := a[i].parentName, executablePath := a[i].executablePath)
  {
    hide CsvDocument, Fields, Texts, Names, C.ParseText;
    CsvRoundTrip(a);
    CsvRoundTrip(b);
    assert ([Names()] + Records(a))[1..] == Records(a) && ([Names()] + Records(b))[1..] == Records(b);
    assert |Records(a)| == |Records(b)|;
    forall i | 0 <= i < |a| ensures forall k :: 0 <= k < 14 ==> Fields(a[i])[k].value == Fields(b[i])[k].value {
      assert Records(a)[i] == Records(b)[i];
      SameTexts(a[i], b[i]);
    }
    forall i | 0 <= i < |a| {
      FieldsIdentify(a[i], b[i]);
    }
  }

  lemma SameTexts(a: Event, b: Event)
    requires Texts(a) == Texts(b)
    ensures forall k :: 0 <= k < 14 ==> Fields(a)[k].value == Fields(b)[k].value
  {
    forall k | 0 <= k < 14 ensures Fields(a)[k].value == Fields(b)[k].value {
      assert Texts(a)[k] == Texts(b)[k];
      SameKind(a, b, k);
      if Fields(a)[k].value.NumberField? {
        DecimalValue(Fields(a)[k].value.number);
        DecimalValue(Fields(b)[k].value.number);
      }
    }
  }

  lemma SameKind(a: Event, b: Event, k: nat)
    requires k < 14
    ensures Fields(a)[k].value.NumberField? <==> Fields(b)[k].value.NumberField?
  {
    hide FormatTimestamp, EventExportName, AlertSeverityName, W;
  }
}
