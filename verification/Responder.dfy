/** The agent's responder: posture, graduated ladder, remote commands, pushed policies and
    the nftables blocker, as an object and as a machine of interleaved steps. */
module Responder {
  import opened Text
  import opened Model

  /** Postures, ordered: off 0, dry-run 1, enforce 2. */
  type Mode = m: int | 0 <= m <= 2
  const OFF: Mode := 0
  const DRY_RUN: Mode := 1
  const ENFORCE: Mode := 2

  datatype Action = AlertOnly | Throttle | NetworkBlock | Quarantine | Kill | Named(name: string)

  /** severity: 1 low, 2 medium, 3 high, 4 critical. */
  datatype Alert = Alert(requested: Option<Action>, riskScore: int, severity: int, event: Event)

  datatype Policy = Policy(throttle: int, block: int, kill: int)
  const DEFAULT_POLICY := Policy(50, 75, 90)

  function ParseMode(s: string): (m: Mode) {
    if s == "dry-run" then DRY_RUN else if s == "enforce" then ENFORCE else OFF
  }

  function ClampMode(requested: Mode, ceiling: Mode): (m: Mode)
    ensures m <= ceiling && (requested <= ceiling ==> m == requested)
  {
    if requested > ceiling then ceiling else requested
  }

  function SeverityScore(severity: int): (n: int) {
    match severity
    case 4 => 90
    case 3 => 75
    case 2 => 50
    case _ => 0
  }

  function EffectiveScore(a: Alert): (n: int) {
    if a.riskScore > 0 then a.riskScore else SeverityScore(a.severity)
  }

  function PolicyAction(p: Policy, a: Alert): (r: Action) {
    if a.requested.Some? then a.requested.value
    else
      var score := EffectiveScore(a);
      if score >= p.kill then Kill
      else if score >= p.block then (if a.event.network.dstIP != "" then NetworkBlock else Throttle)
      else if score >= p.throttle then Throttle
      else AlertOnly
  }

  // ----- effects on the host -----

  /** `ok` is what the external command reported. */
  datatype Effect =
    | Killed(pid: nat, comm: string, ok: bool)
    | Frozen(pid: nat, comm: string, ok: bool)
    | TableAdded(ok: bool)
    | ChainAdded(ok: bool)
    | DropAdded(ip: string, ok: bool)

  /** How the external commands of one step turn out. */
  datatype Outcome = Outcome(kill: bool, freeze: bool, table: bool, chain: bool, drop: bool)

  datatype Blocker = Blocker(chainUp: bool, blocked: set<string>)

  type ValidIP = string -> bool

  function ChainEffects(b: Blocker, o: Outcome): (es: seq<Effect>) {
    if b.chainUp then []
    else if !o.table then [TableAdded(false)]
    else [TableAdded(true), ChainAdded(o.chain)]
  }

  predicate ChainReady(b: Blocker, o: Outcome) {
    b.chainUp || (o.table && o.chain)
  }

  function BlockEffects(b: Blocker, ip: string, valid: ValidIP, o: Outcome): (es: seq<Effect>) {
    if !valid(ip) || ip in b.blocked then []
    else ChainEffects(b, o) + (if ChainReady(b, o) then [DropAdded(ip, o.drop)] else [])
  }

  function Blocked(b: Blocker, ip: string, valid: ValidIP, o: Outcome): (r: Blocker) {
    if !valid(ip) || ip in b.blocked then b
    else Blocker(ChainReady(b, o), if ChainReady(b, o) && o.drop then b.blocked + {ip} else b.blocked)
  }

  /** The host effects of carrying out an action for an alert. */
  function ExecuteEffects(b: Blocker, action: Action, e: Event, valid: ValidIP, o: Outcome): (es: seq<Effect>) {
    match action
    case Kill => [Killed(e.process.pid, e.process.name, o.kill)]
    case Throttle => [Frozen(e.process.pid, e.process.name, o.freeze)]
    case NetworkBlock => if e.network.dstIP == "" then [] else BlockEffects(b, e.network.dstIP, valid, o)
    case Quarantine => if e.network.dstIP == "" then [] else BlockEffects(b, e.network.dstIP, valid, o)
    case _ => []
  }

  function ExecuteBlocker(b: Blocker, action: Action, e: Event, valid: ValidIP, o: Outcome): (r: Blocker) {
    if (action == NetworkBlock || action == Quarantine) && e.network.dstIP != ""
    then Blocked(b, e.network.dstIP, valid, o)
    else b
  }

  // ----- requests: each reads the posture once -----

  datatype Request = ForAlert(alert: Alert) | ForKill(pid: nat) | ForBlock(ip: string)

  type Allowlist = set<string>

  /** Whether a request that read `mode` acts on the host. */
  predicate Acts(mode: Mode, r: Request, allow: Allowlist) {
    mode == ENFORCE &&
    (r.ForAlert? ==> PolicyAction(DEFAULT_POLICY, r.alert) != AlertOnly && r.alert.event.process.executable !in allow)
  }

  function RequestEffects(b: Blocker, r: Request, valid: ValidIP, o: Outcome): (es: seq<Effect>) {
    match r
    case ForAlert(a) => ExecuteEffects(b, PolicyAction(DEFAULT_POLICY, a), a.event, valid, o)
    case ForKill(pid) => [Killed(pid, "", o.kill)]
    case ForBlock(ip) => BlockEffects(b, ip, valid, o)
  }

  function RequestBlocker(b: Blocker, r: Request, valid: ValidIP, o: Outcome): (b': Blocker) {
    match r
    case ForAlert(a) => ExecuteBlocker(b, PolicyAction(DEFAULT_POLICY, a), a.event, valid, o)
    case ForKill(_) => b
    case ForBlock(ip) => Blocked(b, ip, valid, o)
  }

  // ----- remote commands and pushed policies (cmd/argus/fleet.go) -----

  /** strconv.ParseUint(s, 10, 32) */
  function ParseUint32(s: string): (r: Option<nat>)
    ensures r.Some? ==> r.value < 0x1_0000_0000
  {
    if AllDigits(s) && ParseNat(s) < 0x1_0000_0000 then Some(ParseNat(s)) else None
  }

  datatype Command = Command(kind: string, argument: string)

  /** What a command asks of the responder: a posture, a request, or nothing. */
  datatype Ask = AskMode(mode: Mode) | AskRequest(request: Request) | AskNothing

  function AskOf(c: Command): (a: Ask) {
    if c.kind == "SET_RESPONSE_MODE" then AskMode(ParseMode(c.argument))
    else if c.kind == "KILL_PROCESS" then
      var pid := ParseUint32(TrimSpace(c.argument));
      if pid.Some? then AskRequest(ForKill(pid.value)) else AskNothing
    else if c.kind == "QUARANTINE" then AskRequest(ForBlock(TrimSpace(c.argument)))
    else AskNothing
  }

  /** One pushed file: its base name, and the posture its content parses to as a policy
      (None when it does not parse, "" when it names no posture). */
  datatype RuleFile = RuleFile(base: string, parsed: Option<string>)

  const POLICY_FILE := "argus-policy.yml"

  /** The posture a pushed bundle asks for: that of its first policy file. */
  function PolicyMode(files: seq<RuleFile>): (m: Option<Mode>) {
    if files == [] then None
    else if files[0].base != POLICY_FILE then PolicyMode(files[1..])
    else if files[0].parsed.Some? && files[0].parsed.value != "" then Some(ParseMode(files[0].parsed.value))
    else None
  }

  // ----- the object (internal/respond/responder.go, network.go) -----

  class HostResponder {
    const maxMode: Mode
    const allowlist: Allowlist
    const valid: ValidIP
    var mode: Mode
    var chainUp: bool
    var blocked: set<string>
    var effects: seq<Effect>

    constructor (mode: Mode, maxMode: Mode, allowlist: Allowlist, valid: ValidIP)
      ensures Valid() && effects == [] && TheBlocker() == Blocker(false, {})
      ensures this.maxMode == maxMode && this.mode == ClampMode(mode, maxMode)
      ensures this.allowlist == allowlist && this.valid == valid
    {
      this.maxMode, this.allowlist, this.valid := maxMode, allowlist, valid;
      this.mode, chainUp, blocked, effects := ClampMode(mode, maxMode), false, {}, [];
    }

    /** The posture never exceeds the local ceiling. */
    ghost predicate Valid()
      reads this
    {
      mode <= maxMode
    }

    ghost function TheBlocker(): (b: Blocker)
      reads this
    {
      Blocker(chainUp, blocked)
    }

    method SetMode(requested: Mode)
      requires Valid()
      modifies `mode
      ensures Valid() && mode == ClampMode(requested, maxMode)
    {
      mode := ClampMode(requested, maxMode);
    }

    method EnsureChain(o: Outcome) returns (ok: bool)
      modifies `chainUp, `effects
      ensures ok == ChainReady(old(TheBlocker()), o) && chainUp == ok
      ensures effects == old(effects) + ChainEffects(old(TheBlocker()), o)
    {
      if chainUp { return true; }
      effects := effects + [TableAdded(o.table)];
      if !o.table { return false; }
      effects := effects + [ChainAdded(o.chain)];
      if !o.chain { return false; }
      chainUp := true;
      ok := true;
    }

    method Block(ip: string, o: Outcome)
      modifies `chainUp, `blocked, `effects
      ensures TheBlocker() == Blocked(old(TheBlocker()), ip, valid, o)
      ensures effects == old(effects) + BlockEffects(old(TheBlocker()), ip, valid, o)
    {
      if !valid(ip) || ip in blocked { return; }
      var ok := EnsureChain(o);
      if !ok { return; }
      effects := effects + [DropAdded(ip, o.drop)];
      if o.drop { blocked := blocked + {ip}; }
    }

    method Execute(action: Action, e: Event, o: Outcome)
      modifies `chainUp, `blocked, `effects
      ensures TheBlocker() == ExecuteBlocker(old(TheBlocker()), action, e, valid, o)
      ensures effects == old(effects) + ExecuteEffects(old(TheBlocker()), action, e, valid, o)
    {
      match action
      case Kill => effects := effects + [Killed(e.process.pid, e.process.name, o.kill)];
      case Throttle => effects := effects + [Frozen(e.process.pid, e.process.name, o.freeze)];
      case NetworkBlock => if e.network.dstIP != "" { Block(e.network.dstIP, o); }
      case Quarantine => if e.network.dstIP != "" { Block(e.network.dstIP, o); }
      case _ =>
    }

    /** Handle, RequestKill and RequestNetworkBlock: the posture is read once, and the host
        changes exactly if the request acts under it. */
    method Respond(r: Request, o: Outcome)
      requires Valid()
      modifies `chainUp, `blocked, `effects
      ensures Valid()
      ensures
        if Acts(mode, r, allowlist) then
          TheBlocker() == RequestBlocker(old(TheBlocker()), r, valid, o) &&
          effects == old(effects) + RequestEffects(old(TheBlocker()), r, valid, o)
        else TheBlocker() == old(TheBlocker()) && effects == old(effects)
    {
      match r
      case ForAlert(a) =>
        var action := PolicyAction(DEFAULT_POLICY, a);
        if action == AlertOnly || mode == OFF { return; }
        if a.event.process.executable in allowlist { return; }
        if mode == DRY_RUN { return; }
        Execute(action, a.event, o);
      case ForKill(pid) =>
        if mode == OFF || mode == DRY_RUN { return; }
        effects := effects + [Killed(pid, "", o.kill)];
      case ForBlock(ip) =>
        if mode == OFF || mode == DRY_RUN { return; }
        Block(ip, o);
    }

    method ApplyCommand(c: Command, o: Outcome)
      requires Valid()
      modifies `mode, `chainUp, `blocked, `effects
      ensures Valid()
      ensures mode == (if AskOf(c).AskMode? then ClampMode(AskOf(c).mode, maxMode) else old(mode))
      ensures
        if AskOf(c).AskRequest? && Acts(old(mode), AskOf(c).request, allowlist) then
          TheBlocker() == RequestBlocker(old(TheBlocker()), AskOf(c).request, valid, o) &&
          effects == old(effects) + RequestEffects(old(TheBlocker()), AskOf(c).request, valid, o)
        else TheBlocker() == old(TheBlocker()) && effects == old(effects)
    {
      match AskOf(c)
      case AskMode(m) => SetMode(m);
      case AskRequest(r) => Respond(r, o);
      case AskNothing =>
    }

    method ApplyPolicy(files: seq<RuleFile>)
      requires Valid()
      modifies `mode
      ensures Valid()
      ensures mode == (if PolicyMode(files).Some? then ClampMode(PolicyMode(files).value, maxMode) else old(mode))
    {
      for i := 0 to |files|
        invariant Valid() && mode == old(mode)
        invariant PolicyMode(files[i..]) == PolicyMode(files)
      {
        assert files[i..][0] == files[i] && files[i..][1..] == files[i + 1..];
        if files[i].base == POLICY_FILE {
          if files[i].parsed.Some? && files[i].parsed.value != "" { SetMode(ParseMode(files[i].parsed.value)); }
          return;
        }
      }
    }
  }
}
