/** The unified event record and its rule-visible fields. */
module Model {
  import opened Text

  type Uint16 = n: nat | n < 0x1_0000
  type Uint32 = n: nat | n < 0x1_0000_0000
  type Int64 = n: int | MIN_INT64 <= n <= MAX_INT64
  type Rarity = r: real | 0.0 <= r <= 1.0

  datatype Process = Process(
    pid: Uint32, ppid: Uint32, name: string, executable: string, commandLine: string,
    stdioSocket: bool, sha256: string, yaraMatches: seq<string>,
    parentName: string, parentExecutable: string, startTimeNs: nat)
  datatype File = File(path: string, target: string, flags: Uint16, mode: Uint16)
  datatype Network = Network(srcIP: string, srcPort: Uint16, dstIP: string, dstPort: Uint16, domain: string)
  datatype User = User(id: Uint32, name: string)
  datatype Syscall = Syscall(request: Int64, targetPID: Uint32, newUID: Uint32)
  datatype Container = Container(id: string, runtime: string)

  /** Time stamps are integers (nanoseconds). */
  datatype Event = Event(
    timestamp: int, host: string, action: string, process: Process, user: User, file: File,
    network: Network, container: Container, syscall: Syscall, anomalyScore: Rarity)

  /** The rule-visible field paths; NoField is the empty string. */
  datatype FieldPath =
    | EventType | EventAction | HostName
    | ProcessPid | ProcessPpid | ProcessName | ProcessExecutable | ProcessCommandLine
    | ProcessStdioSocket | ProcessSha256 | YaraMatched | ParentName | ParentExecutable
    | UserId | UserName | FilePath | FileTarget | FileFlags | FileMode
    | SourceIp | SourcePort | DestinationIp | DestinationPort | DnsQuestionName
    | ContainerId | ContainerRuntime | SyscallRequest | SyscallTargetPid | SyscallNewUid | AnomalyScore
    | NoField | UnknownField(name: string)

  function PathText(path: FieldPath): (s: string) {
    match path
    case EventType => "event.type"
    case EventAction => "event.action"
    case HostName => "host.name"
    case ProcessPid => "process.pid"
    case ProcessPpid => "process.ppid"
    case ProcessName => "process.name"
    case ProcessExecutable => "process.executable"
    case ProcessCommandLine => "process.command_line"
    case ProcessStdioSocket => "process.stdio_socket"
    case ProcessSha256 => "process.hash.sha256"
    case YaraMatched => "yara.matched"
    case ParentName => "process.parent.name"
    case ParentExecutable => "process.parent.executable"
    case UserId => "user.id"
    case UserName => "user.name"
    case FilePath => "file.path"
    case FileTarget => "file.target"
    case FileFlags => "file.flags"
    case FileMode => "file.mode"
    case SourceIp => "source.ip"
    case SourcePort => "source.port"
    case DestinationIp => "destination.ip"
    case DestinationPort => "destination.port"
    case DnsQuestionName => "dns.question.name"
    case ContainerId => "container.id"
    case ContainerRuntime => "container.runtime"
    case SyscallRequest => "syscall.request"
    case SyscallTargetPid => "syscall.target_pid"
    case SyscallNewUid => "syscall.new_uid"
    case AnomalyScore => "anomaly.score"
    case NoField => ""
    case UnknownField(name) => name
  }

  datatype FieldValue = IntValue(n: int) | BoolValue(b: bool) | StrValue(s: string)

  function NonEmpty(s: string): (v: Option<FieldValue>) {
    if s != "" then Some(StrValue(s)) else None
  }

  function NonZero(n: int): (v: Option<FieldValue>) {
    if n != 0 then Some(IntValue(n)) else None
  }

  function Join(parts: seq<string>, sep: string): (s: string) {
    if parts == [] then "" else if |parts| == 1 then parts[0] else parts[0] + sep + Join(parts[1..], sep)
  }

  /** Field resolves a dotted rule path against the event. */
  function Field(e: Event, path: FieldPath): (v: Option<FieldValue>) {
    match path
    case EventType => NonEmpty(e.action)
    case EventAction => NonEmpty(e.action)
    case HostName => NonEmpty(e.host)
    case ProcessPid => Some(IntValue(e.process.pid))
    case ProcessPpid => Some(IntValue(e.process.ppid))
    case ProcessName => NonEmpty(e.process.name)
    case ProcessExecutable => NonEmpty(e.process.executable)
    case ProcessCommandLine => NonEmpty(e.process.commandLine)
    case ProcessStdioSocket => Some(BoolValue(e.process.stdioSocket))
    case ProcessSha256 => NonEmpty(e.process.sha256)
    case YaraMatched =>
      if e.process.yaraMatches != [] then Some(StrValue(Join(e.process.yaraMatches, ","))) else None
    case ParentName => NonEmpty(e.process.parentName)
    case ParentExecutable => NonEmpty(e.process.parentExecutable)
    case UserId => Some(IntValue(e.user.id))
    case UserName => NonEmpty(e.user.name)
    case FilePath => NonEmpty(e.file.path)
    case FileTarget => NonEmpty(e.file.target)
    case FileFlags => Some(IntValue(e.file.flags))
    case FileMode => Some(IntValue(e.file.mode))
    case SourceIp => NonEmpty(e.network.srcIP)
    case SourcePort => NonZero(e.network.srcPort)
    case DestinationIp => NonEmpty(e.network.dstIP)
    case DestinationPort => NonZero(e.network.dstPort)
    case DnsQuestionName => NonEmpty(e.network.domain)
    case ContainerId => NonEmpty(e.container.id)
    case ContainerRuntime => NonEmpty(e.container.runtime)
    case SyscallRequest => Some(IntValue(e.syscall.request))
    case SyscallTargetPid => NonZero(e.syscall.targetPID)
    case SyscallNewUid => Some(IntValue(e.syscall.newUID))
    case AnomalyScore => Some(IntValue((e.anomalyScore * 100.0 + 0.5).Floor))
    case _ => None
  }

  // ----- the schema: what each field can hold -----

  /** The values a field takes when present, and whether an event may lack it. An
      integer field that may be absent is absent exactly when it is zero. */
  datatype FieldType =
    | StringField(allowEmpty: bool)
    | IntField(lo: int, hi: int, optional: bool)
    | BoolField

  function Schema(path: FieldPath): (t: Option<FieldType>) {
    match path
    case ProcessPid => Some(IntField(0, 0xFFFF_FFFF, false))
    case ProcessPpid => Some(IntField(0, 0xFFFF_FFFF, false))
    case ProcessStdioSocket => Some(BoolField)
    case UserId => Some(IntField(0, 0xFFFF_FFFF, false))
    case FileFlags => Some(IntField(0, 0xFFFF, false))
    case FileMode => Some(IntField(0, 0xFFFF, false))
    case SourcePort => Some(IntField(1, 0xFFFF, true))
    case DestinationPort => Some(IntField(1, 0xFFFF, true))
    case SyscallRequest => Some(IntField(MIN_INT64, MAX_INT64, false))
    case SyscallTargetPid => Some(IntField(1, 0xFFFF_FFFF, true))
    case SyscallNewUid => Some(IntField(0, 0xFFFF_FFFF, false))
    case AnomalyScore => Some(IntField(0, 100, false))
    case YaraMatched => Some(StringField(true))
    case NoField => None
    case UnknownField(_) => None
    case _ => Some(StringField(false))
  }

  predicate KnownField(path: FieldPath) {
    Schema(path).Some?
  }

  predicate MayBeAbsent(t: FieldType) {
    t.StringField? || (t.IntField? && t.optional)
  }

  predicate Inhabits(v: FieldValue, t: FieldType) {
    match t
    case StringField(allowEmpty) => v.StrValue? && (allowEmpty || v.s != "")
    case IntField(lo, hi, _) => v.IntValue? && lo <= v.n <= hi
    case BoolField => v.BoolValue?
  }

  /** Every field of every event holds a value its schema entry allows. */
  lemma FieldRespectsSchema(e: Event, path: FieldPath)
    requires KnownField(path)
    ensures Field(e, path).None? ==> MayBeAbsent(Schema(path).value)
    ensures Field(e, path).Some? ==> Inhabits(Field(e, path).value, Schema(path).value)
  {
    if path == AnomalyScore {
      var x := e.anomalyScore * 100.0 + 0.5;
      assert 0.5 <= x <= 100.5;
    }
  }

  const EMPTY_EVENT := Event(0, "", "",
    Process(0, 0, "", "", "", false, "", [], "", "", 0), User(0, ""), File("", "", 0, 0),
    Network("", 0, "", 0, ""), Container("", ""), Syscall(0, 0, 0), 0.0)

  function ProcessKey(e: Event): (k: string) {
    FormatNat(e.process.pid) + (":" + FormatNat(e.process.startTimeNs))
  }
}
