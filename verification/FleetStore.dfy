/** The control plane's in-memory store: agents with their certificates, command queues and
    recent alerts. Each method is one mutex-protected, atomic step. */
module FleetStore {
  import opened Text

  const MAX_RETAINED_ALERTS := 1000

  /** What a heartbeat reports. */
  datatype Stats = Stats(events: nat, alerts: nat, incidents: nat, rulesVersion: string)

  const NO_STATS := Stats(0, 0, 0, "")

  /** `cert` is the current certificate, `pending` the staged one; "" is none. */
  datatype Agent = Agent(
    hostname: string, cert: string, pending: string, firstSeen: int, lastSeen: int, stats: Stats)

  datatype Command = Command(kind: string, argument: string)

  datatype AlertRecord = AlertRecord(agentID: string, body: string)

  datatype Data = Data(agents: map<string, Agent>, commands: map<string, seq<Command>>, alerts: seq<AlertRecord>)

  const EMPTY := Data(map[], map[], [])

  function QueueOf(d: Data, id: string): (q: seq<Command>) {
    if id in d.commands then d.commands[id] else []
  }

  // ----- the atomic steps, as functions on values -----

  function Enrolled(d: Data, id: string, hostname: string, cert: string, now: int): (r: Data) {
    d.(agents := d.agents[id := Agent(hostname, cert, "", now, now, NO_STATS)])
  }

  function Staged(d: Data, id: string, cert: string): (r: Data) {
    if id in d.agents then d.(agents := d.agents[id := d.agents[id].(pending := cert)]) else d
  }

  predicate CanPromote(d: Data, id: string, cert: string) {
    id in d.agents && d.agents[id].pending != "" && d.agents[id].pending == cert
  }

  function Promoted(d: Data, id: string, cert: string): (r: Data) {
    if CanPromote(d, id, cert) then d.(agents := d.agents[id := d.agents[id].(cert := cert, pending := "")]) else d
  }

  function Beaten(d: Data, id: string, stats: Stats, now: int): (r: Data) {
    if id in d.agents then d.(agents := d.agents[id := d.agents[id].(stats := stats, lastSeen := now)]) else d
  }

  function Enqueued(d: Data, id: string, cmd: Command): (r: Data) {
    if id in d.agents then d.(commands := d.commands[id := QueueOf(d, id) + [cmd]]) else d
  }

  function Drained(d: Data, id: string): (r: Data) {
    d.(commands := d.commands - {id})
  }

  function Retained(alerts: seq<AlertRecord>): (r: seq<AlertRecord>) {
    if |alerts| > MAX_RETAINED_ALERTS then alerts[|alerts| - MAX_RETAINED_ALERTS..] else alerts
  }

  function Recorded(d: Data, a: AlertRecord): (r: Data) {
    d.(alerts := Retained(d.alerts + [a]))
  }

  // ----- the object (server/store/memory.go) -----

  class Memory {
    var agents: map<string, Agent>
    var alerts: seq<AlertRecord>
    var commands: map<string, seq<Command>>

    constructor ()
      ensures Contents() == EMPTY
    {
      agents, alerts, commands := map[], [], map[];
    }

    ghost function Contents(): (d: Data)
      reads this
    {
      Data(agents, commands, alerts)
    }

    /** `id` is the freshly drawn identifier. */
    method Enroll(id: string, hostname: string, cert: string, now: int) returns (agent: Agent)
      modifies this
      ensures Contents() == Enrolled(old(Contents()), id, hostname, cert, now) && agent == agents[id]
    {
      agent := Agent(hostname, cert, "", now, now, NO_STATS);
      agents := agents[id := agent];
    }

    method Get(id: string) returns (agent: Option<Agent>)
      ensures agent == (if id in agents then Some(agents[id]) else None)
    {
      agent := if id in agents then Some(agents[id]) else None;
    }

    method SetPendingCert(id: string, cert: string) returns (ok: bool)
      modifies this
      ensures Contents() == Staged(old(Contents()), id, cert) && ok == (id in old(agents))
    {
      ok := id in agents;
      if ok { agents := agents[id := agents[id].(pending := cert)]; }
    }

    method PromoteCert(id: string, cert: string) returns (ok: bool)
      modifies this
      ensures Contents() == Promoted(old(Contents()), id, cert) && ok == CanPromote(old(Contents()), id, cert)
    {
      if id !in agents || agents[id].pending == "" || agents[id].pending != cert { return false; }
      agents := agents[id := agents[id].(cert := cert, pending := "")];
      ok := true;
    }

    method Heartbeat(id: string, stats: Stats, now: int) returns (ok: bool)
      modifies this
      ensures Contents() == Beaten(old(Contents()), id, stats, now) && ok == (id in old(agents))
    {
      ok := id in agents;
      if ok { agents := agents[id := agents[id].(stats := stats, lastSeen := now)]; }
    }

    method EnqueueCommand(id: string, cmd: Command) returns (ok: bool)
      modifies this
      ensures Contents() == Enqueued(old(Contents()), id, cmd) && ok == (id in old(agents))
    {
      ok := id in agents;
      if ok { commands := commands[id := (if id in commands then commands[id] else []) + [cmd]]; }
    }

    method DrainCommands(id: string) returns (batch: seq<Command>)
      modifies this
      ensures Contents() == Drained(old(Contents()), id) && batch == QueueOf(old(Contents()), id)
    {
      batch := if id in commands then commands[id] else [];
      commands := commands - {id};
    }

    method RecordAlert(a: AlertRecord)
      modifies this
      ensures Contents() == Recorded(old(Contents()), a)
    {
      alerts := alerts + [a];
      if |alerts| > MAX_RETAINED_ALERTS { alerts := alerts[|alerts| - MAX_RETAINED_ALERTS..]; }
    }
  }
}

/** The agent-facing service: who may act as an agent, what a heartbeat returns, and which
    alerts a stream may file. */
module FleetService {
  import opened Text
  import opened FleetStore

  datatype Verdict = Accept | AcceptAndPromote | Reject

  /** What authorizeIdentity decides from the agent it read. */
  function Judge(agent: Option<Agent>, cert: string): (v: Verdict) {
    if agent.None? then Reject
    else if agent.value.cert == "" || cert == agent.value.cert then Accept
    else if agent.value.pending != "" && cert == agent.value.pending then AcceptAndPromote
    else Reject
  }

  function Lookup(d: Data, id: string): (a: Option<Agent>) {
    if id in d.agents then Some(d.agents[id]) else None
  }

  predicate Authorized(d: Data, id: string, cert: string) {
    Judge(Lookup(d, id), cert) != Reject
  }

  function AfterAuthorize(d: Data, id: string, cert: string): (r: Data) {
    if Judge(Lookup(d, id), cert) == AcceptAndPromote then Promoted(d, id, cert) else d
  }

  /** An agent is known by its current certificate or by the staged one; one that enrolled
      without any by all. */
  lemma AuthorizedExactly(d: Data, id: string, cert: string)
    ensures Authorized(d, id, cert) <==>
      && id in d.agents
      && (cert == d.agents[id].cert || (cert == d.agents[id].pending && cert != "") || d.agents[id].cert == "")
    ensures
      Judge(Lookup(d, id), cert) == AcceptAndPromote <==>
      && id in d.agents && cert == d.agents[id].pending && cert != ""
      && cert != d.agents[id].cert && d.agents[id].cert != ""
  {
  }

  /** The UPDATE_RULES command in front of the batch of an agent with stale rules. */
  function Prefix(known: string, current: string): (cmds: seq<Command>) {
    if known != current then [Command("UPDATE_RULES", current)] else []
  }

  /** How many leading reports carry the first one's agent. */
  function SameAgent(reports: seq<AlertRecord>, id: string): (n: nat)
    ensures n <= |reports|
    ensures forall i :: 0 <= i < n ==> reports[i].agentID == id
    ensures n < |reports| ==> reports[n].agentID != id
  {
    if reports == [] || reports[0].agentID != id then 0 else 1 + SameAgent(reports[1..], id)
  }

  /** Appending alerts one at a time keeps the newest. */
  lemma RetainedTwice(alerts: seq<AlertRecord>, a: AlertRecord)
    ensures Retained(Retained(alerts) + [a]) == Retained(alerts + [a])
  {
  }

  class Service {
    const store: Memory
    const rulesVersion: string

    constructor (store: Memory, rulesVersion: string)
      ensures this.store == store && this.rulesVersion == rulesVersion
    {
      this.store, this.rulesVersion := store, rulesVersion;
    }

    method AuthorizeIdentity(id: string, cert: string) returns (ok: bool)
      modifies store
      ensures ok == Authorized(old(store.Contents()), id, cert)
      ensures store.Contents() == AfterAuthorize(old(store.Contents()), id, cert)
    {
      var agent := store.Get(id);
      var verdict := Judge(agent, cert);
      if verdict == AcceptAndPromote { var _ := store.PromoteCert(id, cert); }
      ok := verdict != Reject;
    }

    /** An accepted heartbeat delivers the whole queue, behind UPDATE_RULES when the rules
        are stale, and empties it; a rejected one delivers and changes nothing. */
    method Heartbeat(id: string, cert: string, stats: Stats, now: int) returns (r: Result<seq<Command>>)
      modifies store
      ensures r.Ok? <==> Authorized(old(store.Contents()), id, cert)
      ensures r.Err? ==> store.Contents() == old(store.Contents())
      ensures r.Ok? ==>
                && r.value ==
                   (if stats.rulesVersion == rulesVersion then [] else [Command("UPDATE_RULES", rulesVersion)]) +
                   QueueOf(old(store.Contents()), id)
                && store.Contents() ==
                   Drained(Beaten(AfterAuthorize(old(store.Contents()), id, cert), id, stats, now), id)
    {
      var ok := AuthorizeIdentity(id, cert);
      if !ok { return Err; }
      ok := store.Heartbeat(id, stats, now);
      if !ok { return Err; }
      var batch := store.DrainCommands(id);
      r := Ok(Prefix(stats.rulesVersion, rulesVersion) + batch);
    }

    /** Files reports until one carries another agent. */
    method FileReports(reports: seq<AlertRecord>, id: string) returns (n: nat)
      modifies store
      ensures n == SameAgent(reports, id)
      ensures store.alerts == Filed(old(store.alerts), reports[..n])
      ensures store.agents == old(store.agents) && store.commands == old(store.commands)
    {
      n := 0;
      while n < |reports| && reports[n].agentID == id
        invariant n <= SameAgent(reports, id)
        invariant store.alerts == Filed(old(store.alerts), reports[..n])
        invariant store.agents == old(store.agents) && store.commands == old(store.commands)
      {
        store.RecordAlert(reports[n]);
        FiledSnoc(old(store.alerts), reports, n);
        n := n + 1;
      }
    }

    /** A stream files alerts only for the one agent its certificate was accepted for: the
        reports up to the first with another id. */
    method ReportAlerts(reports: seq<AlertRecord>, cert: string) returns (r: Result<nat>)
      modifies store
      ensures
        var d := old(store.Contents());
        var accepted := AcceptedReports(d, reports, cert);
        && store.Contents() == AfterFirst(d, reports, cert).(alerts := Filed(d.alerts, reports[..accepted]))
        && r == (if accepted == |reports| then Ok(accepted) else Err)
    {
      if reports == [] { return Ok(0); }
      var ok := AuthorizeIdentity(reports[0].agentID, cert);
      if !ok { return Err; }
      var n := FileReports(reports, reports[0].agentID);
      r := if n == |reports| then Ok(n) else Err;
    }
  }

  /** The store's alerts after filing some, one at a time. */
  function Filed(alerts: seq<AlertRecord>, added: seq<AlertRecord>): (r: seq<AlertRecord>) {
    if added == [] then alerts else Retained(alerts + added)
  }

  lemma FiledSnoc(alerts: seq<AlertRecord>, reports: seq<AlertRecord>, n: nat)
    requires n < |reports|
    ensures Retained(Filed(alerts, reports[..n]) + [reports[n]]) == Filed(alerts, reports[..n + 1])
  {
    assert reports[..n + 1] == reports[..n] + [reports[n]];
    assert alerts + (reports[..n] + [reports[n]]) == alerts + reports[..n] + [reports[n]];
    RetainedTwice(alerts + reports[..n], reports[n]);
    if n == 0 { assert reports[..1] == [reports[0]]; }
  }

  /** The first report of a stream decides who it speaks for, and may promote a certificate. */
  function AfterFirst(d: Data, reports: seq<AlertRecord>, cert: string): (r: Data)
    ensures r.alerts == d.alerts && r.commands == d.commands
  {
    if reports == [] then d else AfterAuthorize(d, reports[0].agentID, cert)
  }

  function AcceptedReports(d: Data, reports: seq<AlertRecord>, cert: string): (n: nat)
    ensures n <= |reports|
    ensures forall i :: 0 <= i < n ==> reports[i].agentID == reports[0].agentID
    ensures n > 0 ==> Authorized(d, reports[0].agentID, cert)
  {
    if reports != [] && Authorized(d, reports[0].agentID, cert) then SameAgent(reports, reports[0].agentID) else 0
  }
}
