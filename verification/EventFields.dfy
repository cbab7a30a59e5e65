/** What the rule-visible fields are: setting, clearing and reading any field of any event. */
module EventFields {
  import opened Text
  import opened Model

  /** The event with its field `path` set to `v` and nothing else changed. */
  function Put(e: Event, path: FieldPath, v: FieldValue): (r: Event)
    requires KnownField(path) && Inhabits(v, Schema(path).value)
  {
    match path
    case ProcessPid => e.(process := e.process.(pid := v.n))
    case ProcessPpid => e.(process := e.process.(ppid := v.n))
    case ProcessStdioSocket => e.(process := e.process.(stdioSocket := v.b))
    case UserId => e.(user := e.user.(id := v.n))
    case FileFlags => e.(file := e.file.(flags := v.n))
    case FileMode => e.(file := e.file.(mode := v.n))
    case SourcePort => e.(network := e.network.(srcPort := v.n))
    case DestinationPort => e.(network := e.network.(dstPort := v.n))
    case SyscallRequest => e.(syscall := e.syscall.(request := v.n))
    case SyscallTargetPid => e.(syscall := e.syscall.(targetPID := v.n))
    case SyscallNewUid => e.(syscall := e.syscall.(newUID := v.n))
    case AnomalyScore => e.(anomalyScore := v.n as real / 100.0)
    case YaraMatched => e.(process := e.process.(yaraMatches := [v.s]))
    case EventType => e.(action := v.s)
    case EventAction => e.(action := v.s)
    case HostName => e.(host := v.s)
    case ProcessName => e.(process := e.process.(name := v.s))
    case ProcessExecutable => e.(process := e.process.(executable := v.s))
    case ProcessCommandLine => e.(process := e.process.(commandLine := v.s))
    case ProcessSha256 => e.(process := e.process.(sha256 := v.s))
    case ParentName => e.(process := e.process.(parentName := v.s))
    case ParentExecutable => e.(process := e.process.(parentExecutable := v.s))
    case UserName => e.(user := e.user.(name := v.s))
    case FilePath => e.(file := e.file.(path := v.s))
    case FileTarget => e.(file := e.file.(target := v.s))
    case SourceIp => e.(network := e.network.(srcIP := v.s))
    case DestinationIp => e.(network := e.network.(dstIP := v.s))
    case DnsQuestionName => e.(network := e.network.(domain := v.s))
    case ContainerId => e.(container := e.container.(id := v.s))
    case _ => e.(container := e.container.(runtime := v.s))
  }

  /** The event without its field `path`. */
  function Clear(e: Event, path: FieldPath): (r: Event)
    requires KnownField(path) && MayBeAbsent(Schema(path).value)
  {
    match path
    case SourcePort => e.(network := e.network.(srcPort := 0))
    case DestinationPort => e.(network := e.network.(dstPort := 0))
    case SyscallTargetPid => e.(syscall := e.syscall.(targetPID := 0))
    case YaraMatched => e.(process := e.process.(yaraMatches := []))
    case EventType => e.(action := "")
    case EventAction => e.(action := "")
    case HostName => e.(host := "")
    case ProcessName => e.(process := e.process.(name := ""))
    case ProcessExecutable => e.(process := e.process.(executable := ""))
    case ProcessCommandLine => e.(process := e.process.(commandLine := ""))
    case ProcessSha256 => e.(process := e.process.(sha256 := ""))
    case ParentName => e.(process := e.process.(parentName := ""))
    case ParentExecutable => e.(process := e.process.(parentExecutable := ""))
    case UserName => e.(user := e.user.(name := ""))
    case FilePath => e.(file := e.file.(path := ""))
    case FileTarget => e.(file := e.file.(target := ""))
    case SourceIp => e.(network := e.network.(srcIP := ""))
    case DestinationIp => e.(network := e.network.(dstIP := ""))
    case DnsQuestionName => e.(network := e.network.(domain := ""))
    case ContainerId => e.(container := e.container.(id := ""))
    case _ => e.(container := e.container.(runtime := ""))
  }

  lemma PutScore(e: Event, v: FieldValue)
    requires Inhabits(v, Schema(AnomalyScore).value)
    ensures Field(Put(e, AnomalyScore, v), AnomalyScore) == Some(v)
  {
    var x := v.n as real / 100.0;
    assert x * 100.0 + 0.5 == v.n as real + 0.5;
    assert (v.n as real + 0.5).Floor == v.n;
  }

  lemma PutText(e: Event, path: FieldPath, v: FieldValue)
    requires KnownField(path) && Schema(path).value.StringField? && Inhabits(v, Schema(path).value)
    ensures Field(Put(e, path, v), path) == Some(v)
  {
  }

  lemma PutNumber(e: Event, path: FieldPath, v: FieldValue)
    requires KnownField(path) && !Schema(path).value.StringField? && path != AnomalyScore
    requires Inhabits(v, Schema(path).value)
    ensures Field(Put(e, path, v), path) == Some(v)
  {
  }

  /** A field holds what was put there, in every event. */
  lemma PutThenGet(e: Event, path: FieldPath, v: FieldValue)
    requires KnownField(path) && Inhabits(v, Schema(path).value)
    ensures Field(Put(e, path, v), path) == Some(v)
  {
    if path == AnomalyScore {
      PutScore(e, v);
    } else if Schema(path).value.StringField? {
      PutText(e, path, v);
    } else {
      PutNumber(e, path, v);
    }
  }

  /** Two names of one field, and otherwise none. */
  predicate SameField(p: FieldPath, q: FieldPath) {
    p == q || (p in {EventType, EventAction} && q in {EventType, EventAction})
  }

  // The records an event is made of, and the fields in each.

  datatype Part = OwnPart | ProcessPart | UserPart | FilePart | NetworkPart | ContainerPart | SyscallPart | NoPart

  function PartOf(path: FieldPath): (p: Part) {
    match path
    case EventType => OwnPart
    case EventAction => OwnPart
    case HostName => OwnPart
    case AnomalyScore => OwnPart
    case UserId => UserPart
    case UserName => UserPart
    case FilePath => FilePart
    case FileTarget => FilePart
    case FileFlags => FilePart
    case FileMode => FilePart
    case SourceIp => NetworkPart
    case SourcePort => NetworkPart
    case DestinationIp => NetworkPart
    case DestinationPort => NetworkPart
    case DnsQuestionName => NetworkPart
    case ContainerId => ContainerPart
    case ContainerRuntime => ContainerPart
    case SyscallRequest => SyscallPart
    case SyscallTargetPid => SyscallPart
    case SyscallNewUid => SyscallPart
    case NoField => NoPart
    case UnknownField(_) => NoPart
    case _ => ProcessPart
  }

  predicate Agree(e: Event, f: Event, part: Part) {
    match part
    case OwnPart => e.action == f.action && e.host == f.host && e.anomalyScore == f.anomalyScore
    case ProcessPart => e.process == f.process
    case UserPart => e.user == f.user
    case FilePart => e.file == f.file
    case NetworkPart => e.network == f.network
    case ContainerPart => e.container == f.container
    case SyscallPart => e.syscall == f.syscall
    case NoPart => true
  }

  /** The two events show the same in this field. */
  predicate Alike(e: Event, f: Event, q: FieldPath) {
    Field(e, q) == Field(f, q)
  }

  lemma FieldReadsPart(e: Event, f: Event, q: FieldPath)
    requires Agree(e, f, PartOf(q))
    ensures Alike(e, f, q)
  {
  }

  lemma PutKeepsParts(e: Event, p: FieldPath, v: FieldValue, part: Part)
    requires KnownField(p) && Inhabits(v, Schema(p).value) && part != PartOf(p)
    ensures Agree(e, Put(e, p, v), part)
  {
  }

  lemma ClearKeepsParts(e: Event, p: FieldPath, part: Part)
    requires KnownField(p) && MayBeAbsent(Schema(p).value) && part != PartOf(p)
    ensures Agree(e, Clear(e, p), part)
  {
  }

  /** The fields of a process that the kernel reports. */
  predicate FromKernel(p: FieldPath) {
    p in {ProcessPid, ProcessPpid, ProcessName, ProcessExecutable, ProcessCommandLine}
  }

  lemma PutFromKernel(e: Event, p: FieldPath, v: FieldValue, q: FieldPath)
    requires FromKernel(p) && KnownField(p) && Inhabits(v, Schema(p).value) && PartOf(q) == ProcessPart && p != q
    ensures Alike(e, Put(e, p, v), q)
  {
  }

  lemma PutEnriched(e: Event, p: FieldPath, v: FieldValue, q: FieldPath)
    requires !FromKernel(p) && KnownField(p) && Inhabits(v, Schema(p).value)
    requires PartOf(p) == PartOf(q) == ProcessPart && p != q
    ensures Alike(e, Put(e, p, v), q)
  {
  }

  lemma PutInOther(e: Event, p: FieldPath, v: FieldValue, q: FieldPath)
    requires KnownField(p) && Inhabits(v, Schema(p).value) && PartOf(p) == PartOf(q) != ProcessPart && !SameField(p, q)
    ensures Alike(e, Put(e, p, v), q)
  {
  }

  lemma ClearInProcess(e: Event, p: FieldPath, q: FieldPath)
    requires KnownField(p) && MayBeAbsent(Schema(p).value) && PartOf(p) == PartOf(q) == ProcessPart && p != q
    ensures Alike(e, Clear(e, p), q)
  {
  }

  lemma ClearInOther(e: Event, p: FieldPath, q: FieldPath)
    requires KnownField(p) && MayBeAbsent(Schema(p).value)
    requires PartOf(p) == PartOf(q) != ProcessPart && !SameField(p, q)
    ensures Alike(e, Clear(e, p), q)
  {
  }

  /** The action has two names. */
  lemma TwoNames(e: Event)
    ensures Field(e, EventType) == Field(e, EventAction)
  {
  }

  /** Setting a field changes no other. */
  lemma PutElsewhere(e: Event, p: FieldPath, v: FieldValue, q: FieldPath)
    requires KnownField(p) && Inhabits(v, Schema(p).value) && !SameField(p, q)
    ensures Alike(e, Put(e, p, v), q)
  {
    if PartOf(p) != PartOf(q) {
      PutKeepsParts(e, p, v, PartOf(q));
      FieldReadsPart(e, Put(e, p, v), q);
    } else if PartOf(p) == ProcessPart {
      if FromKernel(p) { PutFromKernel(e, p, v, q); } else { PutEnriched(e, p, v, q); }
    } else {
      PutInOther(e, p, v, q);
    }
  }

  /** A field that was cleared is absent, in every event. */
  lemma ClearThenGet(e: Event, path: FieldPath)
    requires KnownField(path) && MayBeAbsent(Schema(path).value)
    ensures Field(Clear(e, path), path) == None
  {
  }

  /** Clearing a field changes no other. */
  lemma ClearElsewhere(e: Event, p: FieldPath, q: FieldPath)
    requires KnownField(p) && MayBeAbsent(Schema(p).value) && !SameField(p, q)
    ensures Alike(e, Clear(e, p), q)
  {
    if PartOf(p) != PartOf(q) {
      ClearKeepsParts(e, p, PartOf(q));
      FieldReadsPart(e, Clear(e, p), q);
    } else if PartOf(p) == ProcessPart {
      ClearInProcess(e, p, q);
    } else {
      ClearInOther(e, p, q);
    }
  }

  /** A field that is absent is already clear. */
  lemma AbsentIsClear(e: Event, path: FieldPath)
    requires KnownField(path) && Field(e, path).None?
    ensures MayBeAbsent(Schema(path).value) && Clear(e, path) == e
  {
    FieldRespectsSchema(e, path);
  }

  /** Putting back what is there changes nothing. */
  lemma GetThenPut(e: Event, path: FieldPath)
    requires KnownField(path) && Field(e, path).Some? && path !in {YaraMatched, AnomalyScore}
    ensures Inhabits(Field(e, path).value, Schema(path).value) && Put(e, path, Field(e, path).value) == e
  {
    FieldRespectsSchema(e, path);
  }

  /** The score is rounded to the nearest percent, a half upwards. */
  lemma ScoreIsRounded(e: Event)
    ensures Field(e, AnomalyScore).Some? && Field(e, AnomalyScore).value.IntValue?
    ensures
      var n := Field(e, AnomalyScore).value.n as real;
      n - 0.5 <= e.anomalyScore * 100.0 < n + 0.5
  {
  }

  /** One more match is listed behind a comma. */
  lemma {:induction false} MatchesAreListed(e: Event, ms: seq<string>, m: string)
    requires ms != []
    ensures Join(ms + [m], ",") == Join(ms, ",") + "," + m
    ensures
      var one, more := e.(process := e.process.(yaraMatches := ms)), e.(process := e.process.(yaraMatches := ms + [m]));
      Field(one, YaraMatched).Some? && Field(one, YaraMatched).value.StrValue? &&
      Field(more, YaraMatched) == Some(StrValue(Field(one, YaraMatched).value.s + "," + m))
    decreases |ms|
  {
    if |ms| > 1 {
      MatchesAreListed(e, ms[1..], m);
      assert (ms + [m])[1..] == ms[1..] + [m];
      var x, y := ms[0] + ",", Join(ms[1..], ",");
      assert x + (y + "," + m) == (x + y) + "," + m;
    } else {
      assert (ms + [m])[1..] == [m];
    }
  }

  /** An event whose field `path` holds `v`. */
  function EventWith(path: FieldPath, v: FieldValue): (e: Event)
    requires KnownField(path) && Inhabits(v, Schema(path).value)
  {
    Put(EMPTY_EVENT, path, v)
  }

  /** Every value the schema allows is realised by some event. */
  lemma SchemaIsRealised(path: FieldPath, v: FieldValue)
    requires KnownField(path) && Inhabits(v, Schema(path).value)
    ensures Field(EventWith(path, v), path) == Some(v)
  {
    PutThenGet(EMPTY_EVENT, path, v);
  }

  /** A field that may be absent is absent from some event. */
  lemma AbsenceIsRealised(path: FieldPath)
    requires KnownField(path) && MayBeAbsent(Schema(path).value)
    ensures Field(EMPTY_EVENT, path) == None
  {
  }

  // ----- the names of the fields -----

  /** The field a rule or a hunt names. */
  function FieldNamed(text: string): (p: Option<FieldPath>) {
    match text
    case "event.type" => Some(EventType)
    case "event.action" => Some(EventAction)
    case "host.name" => Some(HostName)
    case "process.pid" => Some(ProcessPid)
    case "process.ppid" => Some(ProcessPpid)
    case "process.name" => Some(ProcessName)
    case "process.executable" => Some(ProcessExecutable)
    case "process.command_line" => Some(ProcessCommandLine)
    case "process.stdio_socket" => Some(ProcessStdioSocket)
    case "process.hash.sha256" => Some(ProcessSha256)
    case "yara.matched" => Some(YaraMatched)
    case "process.parent.name" => Some(ParentName)
    case "process.parent.executable" => Some(ParentExecutable)
    case "user.id" => Some(UserId)
    case "user.name" => Some(UserName)
    case "file.path" => Some(FilePath)
    case "file.target" => Some(FileTarget)
    case "file.flags" => Some(FileFlags)
    case "file.mode" => Some(FileMode)
    case "source.ip" => Some(SourceIp)
    case "source.port" => Some(SourcePort)
    case "destination.ip" => Some(DestinationIp)
    case "destination.port" => Some(DestinationPort)
    case "dns.question.name" => Some(DnsQuestionName)
    case "container.id" => Some(ContainerId)
    case "container.runtime" => Some(ContainerRuntime)
    case "syscall.request" => Some(SyscallRequest)
    case "syscall.target_pid" => Some(SyscallTargetPid)
    case "syscall.new_uid" => Some(SyscallNewUid)
    case "anomaly.score" => Some(AnomalyScore)
    case _ => None
  }

  /** Every name is that of its field. */
  lemma NamesAreKept(text: string)
    ensures FieldNamed(text).Some? ==> KnownField(FieldNamed(text).value) && PathText(FieldNamed(text).value) == text
  {
  }
}
