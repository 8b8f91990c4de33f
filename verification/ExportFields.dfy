/** What both structured exporters write for an event: 14 named fields, in this order
    (src/export.c). */
module ExportFields {
  import opened WideStrings
  import opened Formatting
  import opened Events

  datatype FieldValue = TextField(text: Wide) | NumberField(number: nat)

  datatype Field = Field(name: Wide, value: FieldValue)

  function Fields(e: Event): (fields: seq<Field>)
    ensures |fields| == 14
  {
    [Field(W("timestamp"), TextField(FormatTimestamp(e.timestamp))),
     Field(W("event_type"), TextField(EventExportName(e.kind))),
     Field(W("process_name"), TextField(e.processName)),
     Field(W("pid"), NumberField(e.process.pid)),
     Field(W("parent_pid"), NumberField(e.parent.pid)),
     Field(W("details"), TextField(e.details)),
     Field(W("protocol"), TextField(e.protocol)),
     Field(W("local_address"), TextField(e.localAddress)),
     Field(W("local_port"), NumberField(e.localPort)),
     Field(W("remote_address"), TextField(e.remoteAddress)),
     Field(W("remote_port"), NumberField(e.remotePort)),
     Field(W("state"), TextField(e.networkState)),
     Field(W("severity"), TextField(AlertSeverityName(e.severity))),
     Field(W("rule"), TextField(e.ruleName))]
  }

  // ---- the exported fields identify what they came from ----

  lemma SplitAtMark(x: Wide, a: Wide, y: Wide, b: Wide, mark: Wide)
    requires |mark| == 1 && !IsDigit(mark[0]) && AllDigits(a) && AllDigits(b)
    requires x + mark + a == y + mark + b
    ensures x == y && a == b
  {
    var (s, t) := (x + mark + a, y + mark + b);
    assert s[|x|] == mark[0] && t[|y|] == mark[0];
    assert forall i :: |x| < i < |s| ==> s[i] == a[i - |x| - 1];
    assert forall i :: |y| < i < |t| ==> t[i] == b[i - |y| - 1];
    assert |x| == |y|;
    assert x == s[..|x|] && y == t[..|y|];
    assert a == s[|x| + 1..] && b == t[|y| + 1..];
  }

  lemma SamePadded(m: nat, n: nat, width: nat)
    requires Padded(m, width) == Padded(n, width)
    ensures m == n
  {
    PaddedValue(m, width);
    PaddedValue(n, width);
  }

  /** A formatted timestamp determines the time, whatever the values of its parts. */
  lemma TimestampInjective(s: SystemTime, t: SystemTime)
    requires FormatTimestamp(s) == FormatTimestamp(t)
    ensures s == t
  {
    hide Padded;
    var (ps, pt) := (DateAndTime(s), DateAndTime(t));
    SplitAtMark(ps, Padded(s.milliseconds, 3), pt, Padded(t.milliseconds, 3), W("."));
    SamePadded(s.milliseconds, t.milliseconds, 3);
    DateAndTimeInjective(s, t);
  }

  function DateAndTime(t: SystemTime): Wide {
    Padded(t.year, 4) + W("-") + Padded(t.month, 2) + W("-") + Padded(t.day, 2) + W("T") +
    Padded(t.hour, 2) + W(":") + Padded(t.minute, 2) + W(":") + Padded(t.second, 2)
  }

  lemma DateAndTimeInjective(s: SystemTime, t: SystemTime)
    requires DateAndTime(s) == DateAndTime(t)
    ensures s.(milliseconds := 0) == t.(milliseconds := 0)
  {
    hide Padded;
    var (y, z) := (Padded(s.year, 4), Padded(t.year, 4));
    var (ym, zm) := (y + W("-") + Padded(s.month, 2), z + W("-") + Padded(t.month, 2));
    var (yd, zd) := (ym + W("-") + Padded(s.day, 2), zm + W("-") + Padded(t.day, 2));
    var (yh, zh) := (yd + W("T") + Padded(s.hour, 2), zd + W("T") + Padded(t.hour, 2));
    var (yn, zn) := (yh + W(":") + Padded(s.minute, 2), zh + W(":") + Padded(t.minute, 2));
    SplitAtMark(yn, Padded(s.second, 2), zn, Padded(t.second, 2), W(":"));
    SplitAtMark(yh, Padded(s.minute, 2), zh, Padded(t.minute, 2), W(":"));
    SplitAtMark(yd, Padded(s.hour, 2), zd, Padded(t.hour, 2), W("T"));
    SplitAtMark(ym, Padded(s.day, 2), zm, Padded(t.day, 2), W("-"));
    SplitAtMark(y, Padded(s.month, 2), z, Padded(t.month, 2), W("-"));
    SamePadded(s.second, t.second, 2);
    SamePadded(s.minute, t.minute, 2);
    SamePadded(s.hour, t.hour, 2);
    SamePadded(s.day, t.day, 2);
    SamePadded(s.month, t.month, 2);
    SamePadded(s.year, t.year, 4);
  }

  /** Events with the same fields differ at most in what is not exported: the sequence number, the
      creation times, the parent's name and the executable path. */
  lemma FieldsIdentify(a: Event, b: Event)
    requires forall i :: 0 <= i < 14 ==> Fields(a)[i].value == Fields(b)[i].value
    ensures a == b.(sequence := a.sequence, process := ProcessKey(b.process.pid, a.process.creationTime),
                    parent := ProcessKey(b.parent.pid, a.parent.creationTime),
                    parentName := a.parentName, executablePath := a.executablePath)
  {
    hide FormatTimestamp, EventExportName, AlertSeverityName, W;
    var (x, y) := (Fields(a), Fields(b));
    assert x[0].value == y[0].value && x[1].value == y[1].value && x[2].value == y[2].value && x[3].value == y[3].value;
    assert x[4].value == y[4].value && x[5].value == y[5].value && x[6].value == y[6].value && x[7].value == y[7].value;
    assert x[8].value == y[8].value && x[9].value == y[9].value && x[10].value == y[10].value;
    assert x[11].value == y[11].value && x[12].value == y[12].value && x[13].value == y[13].value;
    TimestampInjective(a.timestamp, b.timestamp);
    ExportNameInjective(a.kind, b.kind);
    SeverityNameInjective(a.severity, b.severity);
  }
}
