/** The JSON document of an export (write_json_export in src/export.c) and its round trip through
    the grammar of RFC 8259. */
module JsonDocuments {
  import opened WideStrings
  import opened Formatting
  import opened Events
  import opened ExportFields
  import J = JsonTexts

  // ---- the text ----

  /** %04x. */
  function Hex4(u: Unit): (h: Wide)
    ensures |h| == 4
  {
    [HexDigit(u / 0x1000), HexDigit(u / 0x100 % 16), HexDigit(u / 16 % 16), HexDigit(u % 16)]
  }

  function EscapeUnit(u: Wchar): (text: Wide)
    ensures 1 <= |text| <= 6
  {
    if u == 0x22 then W("\\\"")
    else if u == 0x5C then W("\\\\")
    else if u == 0x08 then W("\\b")
    else if u == 0x0C then W("\\f")
    else if u == 0x0A then W("\\n")
    else if u == 0x0D then W("\\r")
    else if u == 0x09 then W("\\t")
    else if u < 0x20 then W("\\u") + Hex4(u)
    else [u]
  }

  function Escaped(s: Wide): (text: Wide)
    ensures |s| <= |text| <= 6 * |s|
  {
    if s == [] then [] else Escaped(s[..|s| - 1]) + EscapeUnit(s[|s| - 1])
  }

  function JsonString(s: Wide): Wide { [J.QUOTE] + Escaped(s) + [J.QUOTE] }

  function ValueText(v: FieldValue): Wide {
    match v
    case TextField(text) => JsonString(text)
    case NumberField(number) => Decimal(number)
  }

  function MemberText(f: Field, last: bool): Wide {
    W("    \"") + f.name + W("\": ") + ValueText(f.value) + if last then W("\r\n") else W(",\r\n")
  }

  function MembersText(fields: seq<Field>): Wide {
    if fields == [] then [] else MemberText(fields[0], |fields| == 1) + MembersText(fields[1..])
  }

  function ObjectText(e: Event, last: bool): Wide {
    W("  {\r\n") + MembersText(Fields(e)) + if last then W("  }\r\n") else W("  },\r\n")
  }

  function ObjectsText(events: seq<Event>): Wide {
    if events == [] then [] else ObjectText(events[0], |events| == 1) + ObjectsText(events[1..])
  }

  /** The document write_json_export writes for these events. */
  function JsonDocument(events: seq<Event>): Wide { W("[\r\n") + ObjectsText(events) + W("]\r\n") }

  // ---- what it means ----

  function Meaning(v: FieldValue): J.Json {
    match v case TextField(text) => J.String(text) case NumberField(number) => J.Number(number, 0)
  }

  function Members(fields: seq<Field>): (members: seq<(seq<Unit>, J.Json)>)
    ensures |members| == |fields|
  {
    seq(|fields|, i requires 0 <= i < |fields| => (fields[i].name, Meaning(fields[i].value)))
  }

  function ObjectOf(e: Event): J.Json { J.Object(Members(Fields(e))) }

  function Objects(events: seq<Event>): (objects: seq<J.Json>)
    ensures |objects| == |events|
  {
    seq(|events|, i requires 0 <= i < |events| => ObjectOf(events[i]))
  }

  // ---- strings ----

  lemma EscapedLast(s: Wide)
    requires s != []
    ensures Escaped(s) == Escaped(s[..|s| - 1]) + EscapeUnit(s[|s| - 1])
  {
    hide EscapeUnit;
  }

  lemma NothingEscaped()
    ensures Escaped([]) == []
  {
  }

  lemma {:induction false} EscapedFront(s: Wide)
    requires s != []
    ensures Escaped(s) == EscapeUnit(s[0]) + Escaped(s[1..])
  {
    hide Escaped, EscapeUnit;
    var n := |s| - 1;
    EscapedLast(s);
    if n == 0 {
      NothingEscaped();
      assert s[..n] == [] && s[1..] == [];
      assert [] + EscapeUnit(s[0]) == EscapeUnit(s[0]) + [];
    } else {
      EscapedFront(s[..n]);
      EscapedLast(s[1..]);
      assert s[1..][..n - 1] == s[..n][1..];
      var middle := Escaped(s[..n][1..]);
      assert (EscapeUnit(s[0]) + middle) + EscapeUnit(s[n]) == EscapeUnit(s[0]) + (middle + EscapeUnit(s[n]));
    }
  }

  lemma HexDigitValue(n: nat)
    requires n < 16
    ensures J.HexValue(HexDigit(n)) == Some(n)
  {
  }

  lemma HexRoundTrip(u: Wchar)
    requires u < 0x20
    ensures J.HexUnit(Hex4(u)) == Some(u)
  {
    hide HexDigit, J.HexValue;
    HexDigitValue(0);
    HexDigitValue(u / 16);
    HexDigitValue(u % 16);
  }

  /** Every unit reads back from its escape. */
  lemma UnitRoundTrip(u: Wchar, rest: seq<Unit>)
    ensures var s := EscapeUnit(u) + rest; s[0] != J.QUOTE && J.ParseChar(s) == Some((u, rest))
  {
    hide J.HexUnit, Hex4;
    var s := EscapeUnit(u) + rest;
    assert s[|EscapeUnit(u)|..] == rest;
    if u < 0x20 && u != 0x08 && u != 0x0C && u != 0x0A && u != 0x0D && u != 0x09 {
      HexRoundTrip(u);
      assert s[0] == J.ESCAPE && s[1] == 0x75;
      assert s[2..6] == Hex4(u);
    }
  }

  /** Every string reads back from its JSON form, whatever follows it. */
  lemma {:induction false} StringRoundTrip(s: Wide, rest: seq<Unit>)
    ensures J.ParseChars(Escaped(s) + [J.QUOTE] + rest) == Some((s, rest))
  {
    hide EscapeUnit, J.ParseChar;
    var text := Escaped(s) + [J.QUOTE] + rest;
    if s == [] {
      assert text == [J.QUOTE] + rest;
    } else {
      EscapedFront(s);
      var more := Escaped(s[1..]) + [J.QUOTE] + rest;
      assert text == EscapeUnit(s[0]) + more;
      UnitRoundTrip(s[0], more);
      StringRoundTrip(s[1..], rest);
      assert s == [s[0]] + s[1..];
    }
  }

  // ---- values ----

  lemma {:induction false} CountRun(digits: seq<Unit>, rest: seq<Unit>)
    requires AllDigits(digits) && (rest == [] || !IsDigit(rest[0]))
    ensures J.CountDigits(digits + rest) == |digits|
  {
    if digits == [] {
      assert digits + rest == rest;
    } else {
      assert (digits + rest)[1..] == digits[1..] + rest;
      CountRun(digits[1..], rest);
    }
  }

  /** A comma or a line break follows every value. */
  predicate EndsValue(rest: seq<Unit>) { rest != [] && (rest[0] == J.COMMA || rest[0] == 0x0D) }

  lemma NumberRoundTrip(n: nat, rest: seq<Unit>)
    requires EndsValue(rest)
    ensures J.ParseValue(Decimal(n) + rest) == Some((J.Number(n, 0), rest))
  {
    var (digits, s) := (Decimal(n), Decimal(n) + rest);
    CountRun(digits, rest);
    DecimalValue(n);
    hide Decimal, DigitsValue, J.CountDigits;
    assert s[..|digits|] == digits && s[|digits|..] == rest && digits + [] == digits;
    assert IsDigit(s[0]);
  }

  lemma QuotedRoundTrip(text: Wide, rest: seq<Unit>)
    ensures J.ParseValue(JsonString(text) + rest) == Some((J.String(text), rest))
  {
    hide J.ParseChars, J.ParseElements, J.ParseMembers, J.ParseNumber, J.ParseLiteral, J.Skip, Escaped;
    StringRoundTrip(text, rest);
    assert (JsonString(text) + rest)[1..] == Escaped(text) + [J.QUOTE] + rest;
  }

  lemma ValueRoundTrip(v: FieldValue, rest: seq<Unit>)
    requires EndsValue(rest)
    ensures J.ParseValue(ValueText(v) + rest) == Some((Meaning(v), rest))
    ensures ValueText(v) != [] && !J.IsWhitespace(ValueText(v)[0])
  {
    hide J.ParseValue, Escaped;
    match v
    case NumberField(n) =>
      NumberRoundTrip(n, rest);
      assert IsDigit(Decimal(n)[0]);
    case TextField(text) =>
      QuotedRoundTrip(text, rest);
  }

  // ---- members and objects ----

  lemma {:induction false} SkipBlank(blank: seq<Unit>, rest: seq<Unit>)
    requires forall i :: 0 <= i < |blank| ==> J.IsWhitespace(blank[i])
    ensures J.Skip(blank + rest) == J.Skip(rest)
  {
    if blank == [] {
      assert blank + rest == rest;
    } else {
      assert (blank + rest)[1..] == blank[1..] + rest;
      SkipBlank(blank[1..], rest);
    }
  }

  /** A name that needs no escapes. */
  predicate Plain(name: Wide) {
    forall i :: 0 <= i < |name| ==> name[i] >= 0x20 && name[i] != J.QUOTE && name[i] != J.ESCAPE
  }

  lemma {:induction false} PlainEscaped(name: Wide)
    requires Plain(name)
    ensures Escaped(name) == name
  {
    hide EscapeUnit;
    if name == [] {
    } else {
      var last := name[|name| - 1];
      PlainEscaped(name[..|name| - 1]);
      PlainUnit(last);
      assert name == name[..|name| - 1] + [last];
    }
  }

  lemma PlainUnit(u: Wchar)
    requires u >= 0x20 && u != J.QUOTE && u != J.ESCAPE
    ensures EscapeUnit(u) == [u]
  {
  }

  /** A member's text after its indentation. */
  function MemberCore(f: Field): (text: Wide)
    ensures text != [] && text[0] == J.QUOTE
  {
    [J.QUOTE] + f.name + [J.QUOTE, J.COLON, 0x20] + ValueText(f.value)
  }

  lemma MemberRoundTrip(f: Field, rest: seq<Unit>)
    requires Plain(f.name) && EndsValue(rest)
    ensures J.ParseMember(MemberCore(f) + rest) == Some(((f.name, Meaning(f.value)), rest))
  {
    hide J.ParseChars, J.ParseValue, J.Skip, ValueText, Escaped;
    var value := ValueText(f.value) + rest;
    var colon := [J.COLON, 0x20] + value;
    PlainEscaped(f.name);
    StringRoundTrip(f.name, colon);
    assert (MemberCore(f) + rest)[1..] == f.name + [J.QUOTE] + colon;
    ValueRoundTrip(f.value, rest);
    AtColon(value);
  }

  lemma AtColon(value: seq<Unit>)
    requires value != [] && !J.IsWhitespace(value[0])
    ensures var colon := [J.COLON, 0x20] + value;
      J.Skip(colon) == colon && J.Skip(colon[1..]) == value
  {
  }

  const MEMBER_END := W(",\r\n")

  lemma MemberLines(f: Field, last: bool, rest: seq<Unit>)
    ensures J.Skip(MemberText(f, last) + rest) ==
      MemberCore(f) + ((if last then LINE_END else MEMBER_END) + rest)
    ensures EndsValue((if last then LINE_END else MEMBER_END) + rest)
  {
    hide ValueText, J.Skip;
    var end := (if last then LINE_END else MEMBER_END) + rest;
    assert W("    \"") == W("    ") + [J.QUOTE];
    assert W("\": ") == [J.QUOTE, J.COLON, 0x20];
    assert MemberText(f, last) + rest == W("    ") + (MemberCore(f) + end);
    SkipBlank(W("    "), MemberCore(f) + end);
    AtText(MemberCore(f) + end);
  }

  lemma AtText(s: seq<Unit>)
    requires s == [] || !J.IsWhitespace(s[0])
    ensures J.Skip(s) == s
  {
  }

  /** Between members: a comma, then the next member. */
  lemma AfterComma(rest: seq<Unit>)
    ensures var s := MEMBER_END + rest;
      J.Skip(s) == s && s[0] == J.COMMA && J.Skip(s[1..]) == J.Skip(rest)
  {
  }

  /** After the last one: the closing bracket on its own line. */
  lemma AfterLast(close: Wide, rest: seq<Unit>)
    requires close == W("  }") || close == W("]")
    ensures J.Skip(LINE_END + (close + rest)) == [close[|close| - 1]] + rest
  {
    hide J.Skip;
    var bracket := [close[|close| - 1]] + rest;
    assert LINE_END + (close + rest) == (LINE_END + close[..|close| - 1]) + bracket;
    SkipBlank(LINE_END + close[..|close| - 1], bracket);
    AtText(bracket);
  }

  lemma LastMember(s: seq<Unit>, m: (seq<Unit>, J.Json), more: seq<Unit>, rest: seq<Unit>)
    requires J.ParseMember(s) == Some((m, more)) && J.Skip(more) == [J.END_OBJECT] + rest
    ensures J.ParseMembers(s) == Some(([m], rest))
  {
    hide J.ParseMember, J.Skip;
  }

  lemma NextMember(s: seq<Unit>, m: (seq<Unit>, J.Json), more: seq<Unit>, ms: seq<(seq<Unit>, J.Json)>, rest: seq<Unit>)
    requires J.ParseMember(s) == Some((m, more)) && J.Skip(more) != [] && J.Skip(more)[0] == J.COMMA
    requires J.ParseMembers(J.Skip(J.Skip(more)[1..])) == Some((ms, rest))
    ensures J.ParseMembers(s) == Some(([m] + ms, rest))
  {
    hide J.ParseMember, J.Skip;
  }

  lemma MembersSplit(fields: seq<Field>, rest: seq<Unit>)
    requires fields != []
    ensures MembersText(fields) + rest == MemberText(fields[0], |fields| == 1) + (MembersText(fields[1..]) + rest)
    ensures Members(fields) == [(fields[0].name, Meaning(fields[0].value))] + Members(fields[1..])
    ensures |fields| == 1 ==> MembersText(fields[1..]) + rest == rest && Members(fields[1..]) == []
  {
    hide MemberText, Members, Meaning, MembersText;
    FirstMember(fields);
    Regroup(MemberText(fields[0], |fields| == 1), MembersText(fields[1..]), rest);
    NoMembers(rest);
  }

  lemma NoMembers(rest: seq<Unit>)
    ensures MembersText([]) + rest == rest && Members([]) == []
  {
  }

  lemma Regroup(a: seq<Unit>, b: seq<Unit>, c: seq<Unit>)
    ensures (a + b) + c == a + (b + c)
  {
  }

  lemma FirstMember(fields: seq<Field>)
    requires fields != []
    ensures Members(fields) == [(fields[0].name, Meaning(fields[0].value))] + Members(fields[1..])
    ensures MembersText(fields) == MemberText(fields[0], |fields| == 1) + MembersText(fields[1..])
  {
    hide Meaning, MemberText;
  }

  /** The members of an object read back, up to its closing brace. */
  lemma {:induction false} MembersRoundTrip(fields: seq<Field>, rest: seq<Unit>)
    requires fields != [] && forall i :: 0 <= i < |fields| ==> Plain(fields[i].name)
    ensures J.ParseMembers(J.Skip(MembersText(fields) + (W("  }") + rest))) == Some((Members(fields), rest))
  {
    hide J.ParseMember, J.ParseMembers, J.Skip, MemberText, MemberCore, Plain, MembersText, Members, Meaning;
    var (f, close) := (fields[0], W("  }") + rest);
    var member := (f.name, Meaning(f.value));
    var later := MembersText(fields[1..]) + close;
    MembersSplit(fields, close);
    MemberLines(f, |fields| == 1, later);
    if |fields| == 1 {
      MemberRoundTrip(f, LINE_END + close);
      AfterLast(W("  }"), rest);
      assert [member] + [] == [member];
      LastMember(MemberCore(f) + (LINE_END + close), member, LINE_END + close, rest);
    } else {
      MemberRoundTrip(f, MEMBER_END + later);
      AfterComma(later);
      MembersRoundTrip(fields[1..], rest);
      NextMember(MemberCore(f) + (MEMBER_END + later), member, MEMBER_END + later, Members(fields[1..]), rest);
    }
  }

  lemma PlainName(name: string)
    requires forall k :: 0 <= k < |name| ==> 'a' <= name[k] <= 'z' || name[k] == '_'
    ensures Plain(W(name))
  {
  }

  lemma NamesPlain(e: Event)
    ensures forall i :: 0 <= i < 14 ==> Plain(Fields(e)[i].name)
  {
    hide FormatTimestamp, EventExportName, AlertSeverityName, Plain, W;
    PlainName("timestamp");
    PlainName("event_type");
    PlainName("process_name");
    PlainName("pid");
    PlainName("parent_pid");
    PlainName("details");
    PlainName("protocol");
    PlainName("local_address");
    PlainName("local_port");
    PlainName("remote_address");
    PlainName("remote_port");
    PlainName("state");
    PlainName("severity");
    PlainName("rule");
  }

  // ---- the document ----

  lemma ObjectRoundTrip(e: Event, rest: seq<Unit>)
    ensures J.ParseValue(J.Skip(ObjectText(e, true) + rest)) == Some((ObjectOf(e), LINE_END + rest))
    ensures J.ParseValue(J.Skip(ObjectText(e, false) + rest)) == Some((ObjectOf(e), MEMBER_END + rest))
  {
    hide Fields, J.ParseValue, J.Skip, MembersText, Members;
    assert W("  }\r\n") == W("  }") + LINE_END && W("  },\r\n") == W("  }") + MEMBER_END;
    BracesRoundTrip(e, LINE_END + rest);
    BracesRoundTrip(e, MEMBER_END + rest);
    assert ObjectText(e, true) + rest == W("  {\r\n") + (MembersText(Fields(e)) + (W("  }") + (LINE_END + rest)));
    assert ObjectText(e, false) + rest == W("  {\r\n") + (MembersText(Fields(e)) + (W("  }") + (MEMBER_END + rest)));
  }

  lemma BracesRoundTrip(e: Event, rest: seq<Unit>)
    ensures J.ParseValue(J.Skip(W("  {\r\n") + (MembersText(Fields(e)) + (W("  }") + rest)))) ==
      Some((ObjectOf(e), rest))
  {
    hide Fields, J.ParseChars, J.ParseElements, J.ParseMembers, J.ParseNumber, J.ParseLiteral, J.Skip,
      MembersText, Members;
    var members := MembersText(Fields(e)) + (W("  }") + rest);
    var s := [J.BEGIN_OBJECT] + (LINE_END + members);
    assert W("  {\r\n") + members == W("  ") + s;
    SkipBlank(W("  "), s);
    AtText(s);
    assert s[1..] == LINE_END + members;
    SkipBlank(LINE_END, members);
    NamesPlain(e);
    MembersRoundTrip(Fields(e), rest);
    FirstIsQuote(Fields(e), W("  }") + rest);
  }

  lemma FirstIsQuote(fields: seq<Field>, rest: seq<Unit>)
    requires fields != []
    ensures var s := J.Skip(MembersText(fields) + rest); s != [] && s[0] == J.QUOTE
  {
    hide J.Skip, MemberText, MembersText;
    MembersSplit(fields, rest);
    MemberLines(fields[0], |fields| == 1, MembersText(fields[1..]) + rest);
  }

  lemma LastElement(s: seq<Unit>, v: J.Json, more: seq<Unit>, rest: seq<Unit>)
    requires J.ParseValue(s) == Some((v, more)) && J.Skip(more) == [J.END_ARRAY] + rest
    ensures J.ParseElements(s) == Some(([v], rest))
  {
    hide J.ParseValue, J.Skip;
  }

  lemma NextElement(s: seq<Unit>, v: J.Json, more: seq<Unit>, vs: seq<J.Json>, rest: seq<Unit>)
    requires J.ParseValue(s) == Some((v, more)) && J.Skip(more) != [] && J.Skip(more)[0] == J.COMMA
    requires J.ParseElements(J.Skip(J.Skip(more)[1..])) == Some((vs, rest))
    ensures J.ParseElements(s) == Some(([v] + vs, rest))
  {
    hide J.ParseValue, J.Skip;
  }

  lemma ObjectsSplit(events: seq<Event>, rest: seq<Unit>)
    requires events != []
    ensures ObjectsText(events) + rest == ObjectText(events[0], |events| == 1) + (ObjectsText(events[1..]) + rest)
    ensures Objects(events) == [ObjectOf(events[0])] + Objects(events[1..])
    ensures |events| == 1 ==> ObjectsText(events[1..]) + rest == rest && Objects(events[1..]) == []
  {
    hide ObjectText, ObjectOf, Objects, ObjectsText;
    FirstObject(events);
    Regroup(ObjectText(events[0], |events| == 1), ObjectsText(events[1..]), rest);
    NoObjects();
    assert [] + rest == rest;
  }

  lemma FirstObject(events: seq<Event>)
    requires events != []
    ensures Objects(events) == [ObjectOf(events[0])] + Objects(events[1..])
    ensures ObjectsText(events) == ObjectText(events[0], |events| == 1) + ObjectsText(events[1..])
  {
    hide ObjectOf, ObjectText;
  }

  /** The objects of the array read back, up to its closing bracket. */
  lemma {:induction false} ObjectsRoundTrip(events: seq<Event>, rest: seq<Unit>)
    requires events != []
    ensures J.ParseElements(J.Skip(ObjectsText(events) + (W("]") + rest))) == Some((Objects(events), rest))
  {
    hide J.ParseValue, J.ParseElements, J.Skip, ObjectText, ObjectsText, Objects, ObjectOf;
    var (e, close) := (events[0], W("]") + rest);
    var element := ObjectOf(e);
    var later := ObjectsText(events[1..]) + close;
    ObjectsSplit(events, close);
    ObjectRoundTrip(e, later);
    var s := J.Skip(ObjectText(e, |events| == 1) + later);
    if |events| == 1 {
      AfterLast(W("]"), rest);
      assert [element] + [] == [element];
      LastElement(s, element, LINE_END + close, rest);
    } else {
      AfterComma(later);
      ObjectsRoundTrip(events[1..], rest);
      NextElement(s, element, MEMBER_END + later, Objects(events[1..]), rest);
    }
  }

  lemma FirstIsBrace(events: seq<Event>, rest: seq<Unit>)
    requires events != []
    ensures var s := J.Skip(ObjectsText(events) + rest); s != [] && s[0] == J.BEGIN_OBJECT
  {
    hide J.Skip, Fields, MembersText, ObjectText, ObjectsText;
    ObjectsSplit(events, rest);
    ObjectOpens(events[0], |events| == 1, ObjectsText(events[1..]) + rest);
  }

  lemma ObjectOpens(e: Event, last: bool, rest: seq<Unit>)
    ensures var s := J.Skip(ObjectText(e, last) + rest); s != [] && s[0] == J.BEGIN_OBJECT
  {
    hide J.Skip, Fields, MembersText;
    var text := ObjectText(e, last) + rest;
    assert text == W("  ") + text[2..] && text[2] == J.BEGIN_OBJECT;
    SkipBlank(W("  "), text[2..]);
    AtText(text[2..]);
  }

  lemma ArrayRoundTrip(events: seq<Event>)
    ensures J.ParseValue(JsonDocument(events)) == Some((J.Array(Objects(events)), LINE_END))
  {
    hide J.ParseChars, J.ParseElements, J.ParseMembers, J.ParseNumber, J.ParseLiteral, J.Skip, ObjectsText, Objects;
    var (s, inner) := (JsonDocument(events), ObjectsText(events) + (W("]") + LINE_END));
    assert s == [J.BEGIN_ARRAY] + (LINE_END + inner);
    assert s[1..] == LINE_END + inner;
    SkipBlank(LINE_END, inner);
    if events == [] {
      NoObjects();
      assert inner == W("]") + LINE_END;
      AtText(inner);
      assert inner[1..] == LINE_END;
    } else {
      ObjectsRoundTrip(events, LINE_END);
      FirstIsBrace(events, W("]") + LINE_END);
    }
  }

  lemma NoObjects()
    ensures ObjectsText([]) == [] && Objects([]) == []
  {
  }

  /** A parser of RFC 8259 reads the document of any events back as an array of one object per event,
      in order, with the 14 members of each, every string and number recovered. */
  lemma JsonRoundTrip(events: seq<Event>)
    ensures J.ParseText(JsonDocument(events)) == Some(J.Array(Objects(events)))
  {
    hide J.ParseValue, J.Skip, JsonDocument, Objects;
    DocumentOpens(events);
    ArrayRoundTrip(events);
    SkipBlank(LINE_END, []);
    assert LINE_END + [] == LINE_END;
    AtText([]);
  }

  lemma DocumentOpens(events: seq<Event>)
    ensures J.Skip(JsonDocument(events)) == JsonDocument(events)
  {
    hide ObjectsText;
  }

  /** So documents determine what was exported: equal ones come from equally long event lists whose
      events agree in everything but the fields an export leaves out. */
  lemma JsonDocumentsIdentify(a: seq<Event>, b: seq<Event>)
    requires JsonDocument(a) == JsonDocument(b)
    ensures |a| == |b|
    ensures forall i :: 0 <= i < |a| ==>
      a[i] == b[i].(sequence := a[i].sequence, process := ProcessKey(b[i].process.pid, a[i].process.creationTime),
                    parent := ProcessKey(b[i].parent.pid, a[i].parent.creationTime),
                    parentName := a[i].parentName, executablePath := a[i].executablePath)
  {
    hide JsonDocument, Fields, J.ParseText;
    JsonRoundTrip(a);
    JsonRoundTrip(b);
    forall i | 0 <= i < |a| ensures forall k :: 0 <= k < 14 ==> Fields(a[i])[k].value == Fields(b[i])[k].value {
      assert Objects(a)[i] == Objects(b)[i];
      SameMembers(Fields(a[i]), Fields(b[i]));
    }
    forall i | 0 <= i < |a| {
      FieldsIdentify(a[i], b[i]);
    }
  }

  lemma SameMembers(x: seq<Field>, y: seq<Field>)
    requires Members(x) == Members(y)
    ensures |x| == |y| && forall k :: 0 <= k < |x| ==> x[k].value == y[k].value
  {
    assert |Members(x)| == |Members(y)|;
    forall k | 0 <= k < |x| ensures x[k].value == y[k].value {
      assert Members(x)[k] == Members(y)[k];
    }
  }
}
