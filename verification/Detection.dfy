/** The alert rules of src/detection.c. */
module Detection {
  import opened WideStrings
  import opened Formatting
  import opened Events

  const MAX_ALERTS_PER_EVENT := 3

  /** Case mapping of UTF-16 units: `upper` as CompareStringOrdinal folds, `lower` as towlower does. */
  datatype Locale = Locale(upper: Unit -> Unit, lower: Unit -> Unit)

  function OfficeNames(): seq<Wide> {
    [W("WINWORD.EXE"), W("EXCEL.EXE"), W("OUTLOOK.EXE"), W("POWERPNT.EXE"), W("MSACCESS.EXE")]
  }

  function InterpreterNames(): seq<Wide> {
    [W("powershell.exe"), W("pwsh.exe"), W("wscript.exe"), W("cscript.exe"), W("mshta.exe")]
  }

  ghost predicate NamedIn(locale: Locale, name: Wide, names: seq<Wide>) {
    exists i :: 0 <= i < |names| && CompareOrdinal(locale.upper, name, names[i]) == 0
  }

  /** The loop of is_office_process and is_script_interpreter. */
  method FindName(locale: Locale, name: Wide, names: seq<Wide>) returns (found: bool)
    ensures found <==> NamedIn(locale, name, names)
  {
    for index := 0 to |names|
      invariant forall i :: 0 <= i < index ==> CompareOrdinal(locale.upper, name, names[i]) != 0
    {
      if CompareOrdinal(locale.upper, name, names[index]) == 0 {
        return true;
      }
    }
    return false;
  }

  ghost predicate OfficeSpawnedScript(locale: Locale, e: Event) {
    && e.kind.ProcessStart?
    && NamedIn(locale, e.parentName, OfficeNames()) && NamedIn(locale, e.processName, InterpreterNames())
  }

  ghost predicate RunsFromTemp(locale: Locale, e: Event) {
    e.kind.ProcessStart? &&
    (ContainsFolded(locale.lower, e.executablePath, W("\\AppData\\Local\\Temp\\")) ||
     ContainsFolded(locale.lower, e.executablePath, W("\\Windows\\Temp\\")))
  }

  ghost predicate ScriptOwnsConnection(locale: Locale, e: Event) {
    e.kind.Network? && NamedIn(locale, e.processName, InterpreterNames())
  }

  function NewAlert(source: Event, severity: Severity, rule: Wide, details: Wide): Event {
    source.(kind := Alert, severity := severity, ruleName := Truncated(rule, RULE_LENGTH),
            details := Truncated(details, DETAIL_LENGTH))
  }

  function OfficeAlert(e: Event): (alert: Event)
    ensures alert.kind.Alert? && alert.process == e.process && alert.sequence == e.sequence
  {
    NewAlert(e, Medium, W("Office spawned script interpreter"),
             W("Office application spawned a script interpreter: ") + e.parentName + W(" -> ") + e.processName)
  }

  function TempAlert(e: Event): (alert: Event)
    ensures alert.kind.Alert? && alert.process == e.process && alert.sequence == e.sequence
  {
    NewAlert(e, Medium, W("Executable in temporary directory"),
             W("Executable is running from a temporary directory: ") + e.executablePath)
  }

  function ConnectionAlert(e: Event): (alert: Event)
    ensures alert.kind.Alert? && alert.process == e.process && alert.sequence == e.sequence
  {
    NewAlert(e, Info, W("Script interpreter owns TCP connection"),
             W("Script interpreter owns an established TCP connection; remote endpoint ") +
             e.remoteAddress + W(":") + Decimal(e.remotePort))
  }

  /** The alerts an event deserves, in rule order. */
  ghost function Alerts(locale: Locale, e: Event): seq<Event> {
    (if OfficeSpawnedScript(locale, e) then [OfficeAlert(e)] else []) +
    (if RunsFromTemp(locale, e) then [TempAlert(e)] else []) +
    (if ScriptOwnsConnection(locale, e) then [ConnectionAlert(e)] else [])
  }

  /** No event deserves more than two alerts, so the caller's three slots always suffice; alerts
      deserve none. */
  lemma AlertsFit(locale: Locale, e: Event)
    ensures |Alerts(locale, e)| < MAX_ALERTS_PER_EVENT
    ensures forall i :: 0 <= i < |Alerts(locale, e)| ==> Alerts(locale, e)[i].kind.Alert?
    ensures e.kind.Alert? ==> Alerts(locale, e) == []
  {
    hide OfficeAlert, TempAlert, ConnectionAlert, NamedIn, ContainsFolded, OfficeNames, InterpreterNames;
  }

  // ---- the rules, told from the event ----

  ghost predicate SameName(locale: Locale, a: Wide, b: Wide) {
    |a| == |b| && forall i :: 0 <= i < |a| ==> locale.upper(a[i]) == locale.upper(b[i])
  }

  ghost predicate IsOffice(locale: Locale, name: Wide) {
    || SameName(locale, name, W("WINWORD.EXE")) || SameName(locale, name, W("EXCEL.EXE"))
    || SameName(locale, name, W("OUTLOOK.EXE")) || SameName(locale, name, W("POWERPNT.EXE"))
    || SameName(locale, name, W("MSACCESS.EXE"))
  }

  ghost predicate IsInterpreter(locale: Locale, name: Wide) {
    || SameName(locale, name, W("powershell.exe")) || SameName(locale, name, W("pwsh.exe"))
    || SameName(locale, name, W("wscript.exe")) || SameName(locale, name, W("cscript.exe"))
    || SameName(locale, name, W("mshta.exe"))
  }

  /** The event turned into an alert of this rule. */
  ghost predicate Warns(alert: Event, e: Event, severity: Severity, rule: string, details: Wide) {
    alert == e.(kind := Alert, severity := severity, ruleName := W(rule), details := Truncated(details, DETAIL_LENGTH))
  }

  /** Rule 1: an Office parent starts an interpreter. */
  ghost predicate WarnsOfOffice(alert: Event, e: Event) {
    Warns(alert, e, Medium, "Office spawned script interpreter",
          W("Office application spawned a script interpreter: ") + e.parentName + W(" -> ") + e.processName)
  }

  /** Rule 2: something starts from a temporary directory. */
  ghost predicate WarnsOfTemp(alert: Event, e: Event) {
    Warns(alert, e, Medium, "Executable in temporary directory",
          W("Executable is running from a temporary directory: ") + e.executablePath)
  }

  /** Rule 3: an interpreter owns a connection. */
  ghost predicate WarnsOfConnection(alert: Event, e: Event) {
    Warns(alert, e, Info, "Script interpreter owns TCP connection",
          W("Script interpreter owns an established TCP connection; remote endpoint ") + e.remoteAddress + W(":") +
          Decimal(e.remotePort))
  }

  lemma NamesFold(locale: Locale, name: Wide)
    ensures NamedIn(locale, name, OfficeNames()) <==> IsOffice(locale, name)
    ensures NamedIn(locale, name, InterpreterNames()) <==> IsInterpreter(locale, name)
  {
    hide CompareOrdinal, W, SameName;
    forall other: Wide ensures CompareOrdinal(locale.upper, name, other) == 0 <==> SameName(locale, name, other) {
      FoldsSame(locale, name, other);
    }
    var (o, p) := (OfficeNames(), InterpreterNames());
    assert o[0] == W("WINWORD.EXE") && o[1] == W("EXCEL.EXE") && o[2] == W("OUTLOOK.EXE");
    assert o[3] == W("POWERPNT.EXE") && o[4] == W("MSACCESS.EXE");
    assert p[0] == W("powershell.exe") && p[1] == W("pwsh.exe") && p[2] == W("wscript.exe");
    assert p[3] == W("cscript.exe") && p[4] == W("mshta.exe");
  }

  lemma FoldsSame(locale: Locale, a: Wide, b: Wide)
    ensures CompareOrdinal(locale.upper, a, b) == 0 <==> SameName(locale, a, b)
  {
    hide CompareOrdinal;
    OrdinalEqual(locale.upper, a, b);
  }

  lemma AlertsWarn(e: Event)
    ensures WarnsOfOffice(OfficeAlert(e), e) && WarnsOfTemp(TempAlert(e), e) && WarnsOfConnection(ConnectionAlert(e), e)
  {
    hide Decimal;
  }

  /** The alerts an event deserves are exactly these, in this order: of a start, one if an Office process is
      the parent of an interpreter and one if the path lies in a temporary directory; of a connection, one
      if its owner is an interpreter; of anything else, none. */
  lemma AlertsAre(locale: Locale, e: Event)
    ensures var alerts := Alerts(locale, e);
      var office := e.kind.ProcessStart? && IsOffice(locale, e.parentName) && IsInterpreter(locale, e.processName);
      var temp := e.kind.ProcessStart? &&
        (ContainsFolded(locale.lower, e.executablePath, W("\\AppData\\Local\\Temp\\")) ||
         ContainsFolded(locale.lower, e.executablePath, W("\\Windows\\Temp\\")));
      var connection := e.kind.Network? && IsInterpreter(locale, e.processName);
      && |alerts| == (if office then 1 else 0) + (if temp then 1 else 0) + (if connection then 1 else 0)
      && (office ==> WarnsOfOffice(alerts[0], e))
      && (temp ==> WarnsOfTemp(alerts[if office then 1 else 0], e))
      && (connection ==> WarnsOfConnection(alerts[0], e))
  {
    hide OfficeAlert, TempAlert, ConnectionAlert, NamedIn, ContainsFolded, OfficeNames, InterpreterNames, IsOffice,
      IsInterpreter, WarnsOfOffice, WarnsOfTemp, WarnsOfConnection, W;
    NamesFold(locale, e.parentName);
    NamesFold(locale, e.processName);
    AlertsWarn(e);
  }

  /** detection_evaluate: writes the alerts into the caller's buffer, as many as it holds. */
  method DetectionEvaluate(locale: Locale, event: Event, alerts: array<Event>) returns (count: nat)
    modifies alerts
    ensures count <= alerts.Length
    ensures alerts[..count] == Alerts(locale, event)[..Min(|Alerts(locale, event)|, alerts.Length)]
  {
    hide OfficeAlert, TempAlert, ConnectionAlert, NamedIn, ContainsFolded, OfficeNames, InterpreterNames;
    count := 0;
    if alerts.Length == 0 || event.kind == Alert {
      return;
    }
    if event.kind == ProcessStart {
      var office := FindName(locale, event.parentName, OfficeNames());
      var script := FindName(locale, event.processName, InterpreterNames());
      if office && script && count < alerts.Length {
        alerts[count] := OfficeAlert(event);
        count := count + 1;
      }
      var local := StringContainsInsensitive(locale.lower, event.executablePath, W("\\AppData\\Local\\Temp\\"));
      var windows := StringContainsInsensitive(locale.lower, event.executablePath, W("\\Windows\\Temp\\"));
      if (local || windows) && count < alerts.Length {
        alerts[count] := TempAlert(event);
        count := count + 1;
      }
    }
    if event.kind == Network {
      var script := FindName(locale, event.processName, InterpreterNames());
      if script && count < alerts.Length {
        alerts[count] := ConnectionAlert(event);
        count := count + 1;
      }
    }
  }
}
