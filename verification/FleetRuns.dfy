/** Runs of the control plane: heartbeats and alert streams of many agents in flight at once,
    interleaved with enrolments, staged certificates and queued commands. Every store call is
    one step. */
module FleetRuns {
  import opened Text
  import opened FleetStore
  import opened FleetService

  /** Where a heartbeat or a stream stands between its store calls. */
  datatype Phase = Promoting | Beating | Draining | Replied(batch: seq<Command>) | Streaming | Closed | Refused

  /** A heartbeat, or a stream of alert reports with the agent of its first report. */
  datatype Request = Request(id: string, cert: string, stream: bool, phase: Phase)

  datatype World = World(data: Data, requests: map<nat, Request>)

  const START := World(EMPTY, map[])

  datatype Step =
    | Enroll(id: string, hostname: string, cert: string, now: int)
    | Stage(id: string, cert: string)
    | Enqueue(id: string, cmd: Command)
    | Begin(req: nat, id: string, cert: string, stream: bool)
    | Promote(req: nat)
    | Beat(req: nat, stats: Stats, now: int)
    | Drain(req: nat)
    | Report(req: nat, alert: AlertRecord)
    | Hangup(req: nat)

  predicate InPhase(w: World, req: nat, p: Phase) {
    req in w.requests && w.requests[req].phase == p
  }

  /** Identifiers are freshly drawn, and agents enrol with a certificate. */
  predicate Enabled(w: World, s: Step) {
    match s
    case Enroll(id, _, cert, _) => id !in w.data.agents && cert != ""
    case Stage(_, _) => true
    case Enqueue(_, _) => true
    case Begin(req, _, _, _) => req !in w.requests
    case Promote(req) => InPhase(w, req, Promoting)
    case Beat(req, _, _) => InPhase(w, req, Beating)
    case Drain(req) => InPhase(w, req, Draining)
    case Report(req, _) => InPhase(w, req, Streaming)
    case Hangup(req) => InPhase(w, req, Streaming)
  }

  function Working(stream: bool): (p: Phase) {
    if stream then Streaming else Beating
  }

  function FirstPhase(v: Verdict, stream: bool): (p: Phase) {
    match v
    case Accept => Working(stream)
    case AcceptAndPromote => Promoting
    case Reject => Refused
  }

  function Move(w: World, req: nat, p: Phase): (r: map<nat, Request>)
    requires req in w.requests
  {
    w.requests[req := w.requests[req].(phase := p)]
  }

  function Apply(w: World, s: Step): (w': World)
    requires Enabled(w, s)
  {
    var d := w.data;
    match s
    case Enroll(id, hostname, cert, now) => w.(data := Enrolled(d, id, hostname, cert, now))
    case Stage(id, cert) => w.(data := Staged(d, id, cert))
    case Enqueue(id, cmd) => w.(data := Enqueued(d, id, cmd))
    case Begin(req, id, cert, stream) =>
      w.(requests := w.requests[req := Request(id, cert, stream, FirstPhase(Judge(Lookup(d, id), cert), stream))])
    case Promote(req) =>
      var r := w.requests[req];
      World(Promoted(d, r.id, r.cert), Move(w, req, Working(r.stream)))
    case Beat(req, stats, now) =>
      var r := w.requests[req];
      World(Beaten(d, r.id, stats, now), Move(w, req, if r.id in d.agents then Draining else Refused))
    case Drain(req) =>
      var r := w.requests[req];
      World(Drained(d, r.id), Move(w, req, Replied(QueueOf(d, r.id))))
    case Report(req, alert) =>
      if alert.agentID == w.requests[req].id then w.(data := Recorded(d, alert))
      else w.(requests := Move(w, req, Closed))
    case Hangup(req) => w.(requests := Move(w, req, Closed))
  }

  predicate Valid(run: seq<Step>)
    decreases |run|, 0
  {
    run == [] || (Valid(Init(run)) && Enabled(After(Init(run)), run[|run| - 1]))
  }

  function After(run: seq<Step>): (w: World)
    requires Valid(run)
    decreases |run|, 1
  {
    if run == [] then START else Apply(After(Init(run)), run[|run| - 1])
  }

  lemma {:induction false} PrefixesValid(run: seq<Step>, n: nat)
    requires Valid(run) && n <= |run|
    ensures Valid(run[..n])
  {
    if n < |run| {
      PrefixesValid(Init(run), n);
      assert Init(run)[..n] == run[..n];
    } else {
      assert run[..n] == run;
    }
  }

  /** The world before the n-th step. */
  function At(run: seq<Step>, n: nat): (w: World)
    requires Valid(run) && n <= |run|
  {
    PrefixesValid(run, n);
    After(run[..n])
  }

  lemma AtInit(run: seq<Step>, n: nat)
    requires Valid(run) && n < |run|
    ensures At(run, n) == At(Init(run), n)
  {
    assert Init(run)[..n] == run[..n];
  }

  // ----- acceptance -----

  predicate Accepted(w: World, req: nat) {
    req in w.requests && w.requests[req].phase != Refused
  }

  /** In world w the certificate is the agent's current one, or its pending one. */
  predicate Identifies(w: World, id: string, cert: string) {
    id in w.data.agents && cert != "" && (cert == w.data.agents[id].cert || cert == w.data.agents[id].pending)
  }

  ghost predicate Certified(d: Data) {
    forall id :: id in d.agents ==> d.agents[id].cert != ""
  }

  lemma {:induction false} AlwaysCertified(run: seq<Step>)
    requires Valid(run)
    ensures Certified(After(run).data)
  {
    if run != [] { AlwaysCertified(Init(run)); }
  }

  /** A request past its first check was begun, by its own certificate, in a world where that
      certificate was current or pending for its agent. */
  lemma {:induction false} AcceptedWasIdentified(run: seq<Step>, req: nat) returns (n: nat)
    requires Valid(run) && Accepted(After(run), req)
    ensures n < |run|
    ensures
      var r := After(run).requests[req];
      run[n] == Begin(req, r.id, r.cert, r.stream) && Identifies(At(run, n), r.id, r.cert)
  {
    assert run != [];
    var init, last := Init(run), run[|run| - 1];
    if last.Begin? && last.req == req {
      n := |run| - 1;
      AlwaysCertified(init);
    } else {
      n := AcceptedWasIdentified(init, req);
      AtInit(run, n);
    }
  }

  // ----- rotation -----

  /** Neither the current nor the pending certificate of the agent. */
  predicate Retired(w: World, id: string, cert: string) {
    id in w.data.agents && w.data.agents[id].cert != cert && w.data.agents[id].pending != cert
  }

  lemma RetiredStep(w: World, s: Step, id: string, cert: string)
    requires Enabled(w, s) && cert != "" && Retired(w, id, cert) && s != Stage(id, cert)
    ensures Retired(Apply(w, s), id, cert)
  {
  }

  /** Once an agent is promoted from certificate `retired` to another, `retired` stays retired in
      every continuation that does not stage it again, and requests under it are refused. */
  lemma {:induction false} PromotionRetires(pre: seq<Step>, req: nat, post: seq<Step>, retired: string)
    requires Valid(pre + [Promote(req)] + post) && Valid(pre) && Enabled(After(pre), Promote(req))
    requires
      var r := After(pre).requests[req];
      && CanPromote(After(pre).data, r.id, r.cert)
      && retired == After(pre).data.agents[r.id].cert != r.cert && retired != ""
      && forall i :: 0 <= i < |post| ==> post[i] != Stage(r.id, retired)
    ensures
      var r := After(pre).requests[req];
      Retired(After(pre + [Promote(req)] + post), r.id, retired) &&
      !Authorized(After(pre + [Promote(req)] + post).data, r.id, retired)
    decreases |post|
  {
    var run := pre + [Promote(req)] + post;
    var id := After(pre).requests[req].id;
    if post == [] {
      assert run == pre + [Promote(req)] && Init(run) == pre;
    } else {
      assert Init(run) == pre + [Promote(req)] + Init(post);
      PromotionRetires(pre, req, Init(post), retired);
      assert run[|run| - 1] == post[|post| - 1];
      RetiredStep(After(Init(run)), run[|run| - 1], id, retired);
    }
    AlwaysCertified(run);
  }

  /** A promotion of this agent that takes effect. */
  predicate Promotes(w: World, s: Step, id: string) {
    s.Promote? && s.req in w.requests && w.requests[s.req].id == id && CanPromote(w.data, id, w.requests[s.req].cert)
  }

  /** A step keeps an agent and its current certificate unless it promotes that agent. In
      particular staging a certificate, any number of times, keeps the current one valid. */
  lemma CurrentStaysValid(w: World, s: Step, id: string)
    requires Enabled(w, s) && id in w.data.agents && !Promotes(w, s, id)
    ensures id in Apply(w, s).data.agents && Apply(w, s).data.agents[id].cert == w.data.agents[id].cert
    ensures Authorized(Apply(w, s).data, id, w.data.agents[id].cert)
  {
  }

  lemma {:induction false} CurrentValidUntilPromoted(run: seq<Step>, n: nat, id: string)
    requires Valid(run) && n <= |run| && id in At(run, n).data.agents
    requires forall m :: n <= m < |run| ==> !Promotes(At(run, m), run[m], id)
    ensures Authorized(After(run).data, id, At(run, n).data.agents[id].cert)
    ensures id in After(run).data.agents && After(run).data.agents[id].cert == At(run, n).data.agents[id].cert
  {
    if n == |run| {
      assert run[..n] == run;
    } else {
      var init := Init(run);
      forall m | n <= m < |init| ensures !Promotes(At(init, m), init[m], id) { AtInit(run, m); }
      AtInit(run, n);
      CurrentValidUntilPromoted(init, n, id);
      assert !Promotes(At(run, |run| - 1), run[|run| - 1], id);
      CurrentStaysValid(After(init), run[|run| - 1], id);
    }
  }

  // ----- the command queue -----

  /** The commands accepted for an agent, in order. */
  function AcceptedCommands(run: seq<Step>, id: string): (cs: seq<Command>)
    requires Valid(run)
  {
    if run == [] then []
    else
      var s := run[|run| - 1];
      AcceptedCommands(Init(run), id) +
      (if s.Enqueue? && s.id == id && id in After(Init(run)).data.agents then [s.cmd] else [])
  }

  /** The batches delivered to an agent, one after the other. */
  function DeliveredCommands(run: seq<Step>, id: string): (cs: seq<Command>)
    requires Valid(run)
  {
    if run == [] then []
    else
      var s, w := run[|run| - 1], After(Init(run));
      DeliveredCommands(Init(run), id) +
      (if s.Drain? && w.requests[s.req].id == id then After(run).requests[s.req].phase.batch else [])
  }

  /** How one step changes an agent's queue. */
  lemma QueueStep(w: World, s: Step, id: string)
    requires Enabled(w, s)
    ensures QueueOf(Apply(w, s).data, id) ==
            if s.Enqueue? && s.id == id && id in w.data.agents then QueueOf(w.data, id) + [s.cmd]
            else if s.Drain? && w.requests[s.req].id == id then []
            else QueueOf(w.data, id)
    ensures s.Drain? ==> Apply(w, s).requests[s.req].phase == Replied(QueueOf(w.data, w.requests[s.req].id))
  {
  }

  /** Nothing is lost, repeated or reordered: what an agent was sent, followed by its queue,
      is what was accepted for it. */
  lemma {:induction false} QueueConserved(run: seq<Step>, id: string)
    requires Valid(run)
    ensures DeliveredCommands(run, id) + QueueOf(After(run).data, id) == AcceptedCommands(run, id)
  {
    if run != [] {
      QueueConserved(Init(run), id);
      var w, s := After(Init(run)), run[|run| - 1];
      QueueStep(w, s, id);
      if s.Enqueue? && s.id == id && id in w.data.agents {
        Assoc(DeliveredCommands(Init(run), id), QueueOf(w.data, id), [s.cmd]);
      }
    }
  }

  /** The n-th step accepts this command. */
  predicate AcceptsAt(run: seq<Step>, n: nat, id: string, cmd: Command)
    requires Valid(run)
  {
    n < |run| && run[n] == Enqueue(id, cmd) && id in At(run, n).data.agents
  }

  lemma {:induction false} AcceptedMembers(run: seq<Step>, id: string, cmd: Command)
    requires Valid(run)
    ensures cmd in AcceptedCommands(run, id) <==> exists n :: AcceptsAt(run, n, id, cmd)
  {
    if run != [] {
      var init, k := Init(run), |run| - 1;
      AcceptedMembers(init, id, cmd);
      forall n: nat | n < k ensures AcceptsAt(run, n, id, cmd) == AcceptsAt(init, n, id, cmd) { AtInit(run, n); }
      assert At(run, k) == After(init);
      assert AcceptsAt(run, k, id, cmd) <==> run[k] == Enqueue(id, cmd) && id in After(init).data.agents;
    }
  }

  // ----- alert streams -----

  /** The alerts that were filed, in order. */
  function Filed(run: seq<Step>): (alerts: seq<AlertRecord>)
    requires Valid(run)
  {
    if run == [] then []
    else Filed(Init(run)) + FiledBy(After(Init(run)), run[|run| - 1])
  }

  function FiledBy(w: World, s: Step): (alerts: seq<AlertRecord>)
    requires Enabled(w, s)
    ensures |alerts| <= 1
  {
    if s.Report? && s.alert.agentID == w.requests[s.req].id then [s.alert] else []
  }

  /** The list ends with these. */
  predicate EndsWith(all: seq<AlertRecord>, kept: seq<AlertRecord>) {
    |kept| <= |all| && all[|all| - |kept|..] == kept
  }

  lemma AlertsStep(w: World, s: Step)
    requires Enabled(w, s)
    ensures Apply(w, s).data.alerts ==
            if FiledBy(w, s) == [] then w.data.alerts else Retained(w.data.alerts + [s.alert])
  {
  }

  /** The store holds the newest of them. */
  lemma {:induction false} NewestFiledKept(run: seq<Step>)
    requires Valid(run)
    ensures After(run).data.alerts == Retained(Filed(run))
  {
    if run != [] {
      NewestFiledKept(Init(run));
      var w, s := After(Init(run)), run[|run| - 1];
      AlertsStep(w, s);
      if FiledBy(w, s) != [] { RetainedTwice(Filed(Init(run)), s.alert); }
    }
  }

  /** The alerts on file are the end of all that were filed, and all of them up to a thousand. */
  lemma NewestOnFile(run: seq<Step>)
    requires Valid(run)
    ensures EndsWith(Filed(run), After(run).data.alerts)
    ensures |After(run).data.alerts| == if |Filed(run)| < 1000 then |Filed(run)| else 1000
  {
    NewestFiledKept(run);
  }

  /** The m-th step filed this alert on this stream. */
  predicate FiledAt(run: seq<Step>, m: nat, req: nat, alert: AlertRecord)
    requires Valid(run)
  {
    m < |run| && run[m] == Report(req, alert) &&
    req in At(run, m).requests && At(run, m).requests[req].id == alert.agentID
  }

  lemma StepEnabled(run: seq<Step>, m: nat)
    requires Valid(run) && m < |run|
    ensures Enabled(At(run, m), run[m])
  {
    PrefixesValid(run, m + 1);
    assert Init(run[..m + 1]) == run[..m];
  }

  lemma {:induction false} FiledMembers(run: seq<Step>, alert: AlertRecord)
    requires Valid(run)
    ensures alert in Filed(run) <==> exists m, req :: FiledAt(run, m, req, alert)
  {
    if run != [] {
      var init, k := Init(run), |run| - 1;
      FiledMembers(init, alert);
      forall m: nat, req: nat | m < k ensures FiledAt(run, m, req, alert) == FiledAt(init, m, req, alert) {
        AtInit(run, m);
      }
      assert At(run, k) == After(init);
      if alert in FiledBy(After(init), run[k]) { assert FiledAt(run, k, run[k].req, alert); }
    }
  }

  lemma {:induction false} OnlyStreamsStream(run: seq<Step>, req: nat)
    requires Valid(run) && InPhase(After(run), req, Streaming)
    ensures After(run).requests[req].stream
  {
    assert run != [];
    if req in After(Init(run)).requests && After(Init(run)).requests[req].phase == Streaming {
      OnlyStreamsStream(Init(run), req);
    }
  }

  /** Every alert on file was filed by a stream that was opened, for that alert's agent, under
      a certificate that was current or staged for it at that moment. */
  lemma FiledWasIdentified(run: seq<Step>, alert: AlertRecord) returns (n: nat, m: nat)
    requires Valid(run) && alert in After(run).data.alerts
    ensures n < m < |run| && run[n].Begin? && run[n].stream && run[n].id == alert.agentID
    ensures run[m] == Report(run[n].req, alert) && Identifies(At(run, n), alert.agentID, run[n].cert)
  {
    NewestFiledKept(run);
    FiledMembers(run, alert);
    var req: nat;
    m, req :| FiledAt(run, m, req, alert);
    StepEnabled(run, m);
    PrefixesValid(run, m);
    n := AcceptedWasIdentified(run[..m], req);
    OnlyStreamsStream(run[..m], req);
    assert run[..m][..n] == run[..n];
  }

  /** A stream is judged once: no step but its own last one ends it, whatever becomes of the
      certificate it was opened under. */
  lemma StreamStays(w: World, s: Step, req: nat)
    requires Enabled(w, s) && InPhase(w, req, Streaming)
    ensures InPhase(Apply(w, s), req, Streaming) <==>
      s != Hangup(req) && (s.Report? && s.req == req ==> s.alert.agentID == w.requests[req].id)
  {
  }

  const ROTATED := [
    Enroll("a", "web-1", "c1", 0), Begin(0, "a", "c1", true), Stage("a", "c2"), Begin(1, "a", "c2", false), Promote(1)]

  lemma GrowsTo(run: seq<Step>, n: nat)
    requires n < |run| && Valid(run[..n]) && Enabled(After(run[..n]), run[n])
    ensures Valid(run[..n + 1]) && After(run[..n + 1]) == Apply(After(run[..n]), run[n])
  {
    assert Init(run[..n + 1]) == run[..n];
  }

  lemma RotatedWorld()
    ensures Valid(ROTATED) && Retired(After(ROTATED), "a", "c1") && InPhase(After(ROTATED), 0, Streaming)
    ensures After(ROTATED).requests[0].id == "a" && After(ROTATED).data.alerts == []
  {
    assert ROTATED[..0] == [];
    GrowsTo(ROTATED, 0);
    assert After(ROTATED[..1]) == World(Data(map["a" := Agent("web-1", "c1", "", 0, 0, NO_STATS)], map[], []), map[]);
    GrowsTo(ROTATED, 1);
    assert After(ROTATED[..2]).requests == map[0 := Request("a", "c1", true, Streaming)];
    GrowsTo(ROTATED, 2);
    assert After(ROTATED[..3]).data.agents == map["a" := Agent("web-1", "c1", "c2", 0, 0, NO_STATS)];
    GrowsTo(ROTATED, 3);
    assert InPhase(After(ROTATED[..4]), 1, Promoting);
    GrowsTo(ROTATED, 4);
    assert ROTATED[..5] == ROTATED;
  }

  /** A stream opened under a certificate files on after that certificate was retired. */
  lemma StreamOutlivesItsCertificate(body: string)
    ensures Valid(ROTATED) && Retired(After(ROTATED), "a", "c1") && !Authorized(After(ROTATED).data, "a", "c1")
    ensures Valid(ROTATED + [Report(0, AlertRecord("a", body))])
    ensures AlertRecord("a", body) in After(ROTATED + [Report(0, AlertRecord("a", body))]).data.alerts
  {
    RotatedWorld();
    var run := ROTATED + [Report(0, AlertRecord("a", body))];
    assert run[..|ROTATED|] == ROTATED && run[..|run|] == run;
    GrowsTo(run, |ROTATED|);
    assert After(run).data.alerts == Retained([] + [AlertRecord("a", body)]);
  }
}
