/** The event record every component exchanges (include/events.h) and its names (src/events.c). */
module Events {
  import opened WideStrings
  import opened Formatting

  type Word = x: nat | x < 0x1_0000
  type Dword = x: nat | x < 0x1_0000_0000
  type Qword = x: nat | x < 0x1_0000_0000_0000_0000

  datatype EventType = ProcessStart | ProcessStop | Network | File | Registry | Alert

  datatype Severity = NoSeverity | Info | Low | Medium | High

  /** A PID with the creation time of its process; time 0 means the time is unknown. */
  datatype ProcessKey = ProcessKey(pid: Dword, creationTime: Qword)

  datatype SystemTime = SystemTime(
    year: Word, month: Word, day: Word,
    hour: Word, minute: Word, second: Word, milliseconds: Word)

  datatype Event = Event(
    kind: EventType,
    severity: Severity,
    sequence: Qword,
    process: ProcessKey,
    parent: ProcessKey,
    timestamp: SystemTime,
    processName: Wide,
    parentName: Wide,
    executablePath: Wide,
    protocol: Wide,
    localAddress: Wide,
    remoteAddress: Wide,
    networkState: Wide,
    ruleName: Wide,
    localPort: Word,
    remotePort: Word,
    details: Wide)

  const NO_KEY := ProcessKey(0, 0)
  const NO_TIME := SystemTime(0, 0, 0, 0, 0, 0, 0)
  const NO_EVENT := Event(ProcessStart, NoSeverity, 0, NO_KEY, NO_KEY, NO_TIME,
                          [], [], [], [], [], [], [], [], 0, 0, [])

  const DETAIL_LENGTH := 1024
  const RULE_LENGTH := 96

  /** Both times known and the PID nonzero: the key names one process. */
  predicate Exact(key: ProcessKey) { key.pid != 0 && key.creationTime != 0 }

  /** Sequence numbers count a log from 1. */
  ghost predicate Sequenced(log: seq<Event>) {
    forall i :: 0 <= i < |log| ==> log[i].sequence == i + 1
  }

  predicate IsProcessEvent(e: Event) { e.kind.ProcessStart? || e.kind.ProcessStop? }

  function EventTypeName(kind: EventType): Wide {
    match kind
    case ProcessStart => W("PROCESS START")
    case ProcessStop => W("PROCESS STOP")
    case Network => W("NETWORK")
    case File => W("FILE")
    case Registry => W("REGISTRY")
    case Alert => W("ALERT")
  }

  function EventCategoryName(kind: EventType): Wide {
    match kind
    case ProcessStart => W("Process")
    case ProcessStop => W("Process")
    case Network => W("Network")
    case File => W("File")
    case Registry => W("Registry")
    case Alert => W("Alert")
  }

  function EventExportName(kind: EventType): Wide {
    match kind
    case ProcessStart => W("process_start")
    case ProcessStop => W("process_stop")
    case Network => W("network_connection")
    case File => W("file")
    case Registry => W("registry")
    case Alert => W("alert")
  }

  function AlertSeverityName(severity: Severity): Wide {
    match severity
    case Info => W("INFO")
    case Low => W("LOW")
    case Medium => W("MEDIUM")
    case High => W("HIGH")
    case NoSeverity => W("NONE")
  }

  /** An exported type name identifies its event type. */
  lemma ExportNameInjective(a: EventType, b: EventType)
    requires EventExportName(a) == EventExportName(b)
    ensures a == b
  {
  }

  /** An exported severity name identifies its severity. */
  lemma SeverityNameInjective(a: Severity, b: Severity)
    requires AlertSeverityName(a) == AlertSeverityName(b)
    ensures a == b
  {
    assert |AlertSeverityName(a)| == |AlertSeverityName(b)|;
    assert AlertSeverityName(a)[0] == AlertSeverityName(b)[0];
  }

  /** The ISO form of src/export.c: %04u-%02u-%02uT%02u:%02u:%02u.%03u. */
  function FormatTimestamp(t: SystemTime): Wide {
    Padded(t.year, 4) + W("-") + Padded(t.month, 2) + W("-") + Padded(t.day, 2) + W("T") +
    Padded(t.hour, 2) + W(":") + Padded(t.minute, 2) + W(":") + Padded(t.second, 2) + W(".") +
    Padded(t.milliseconds, 3)
  }
}
