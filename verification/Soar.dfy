/** Response playbooks: which alerts run them, what their steps do, and what they may queue
    for an agent. */
module Soar {
  import opened Text
  import opened Playbooks
  import Model

  const MAX_RUNS := 200

  datatype Alert = Alert(
    agentID: string, ruleID: string, severity: string, technique: string, pid: Model.Uint32, destination: string,
    riskScore: int, isIncident: bool)

  /** A side effect asked of a collaborator. */
  datatype Effect =
    | Notified | CaseOpened | Hunted(query: string) | Enqueued(agentID: string, kind: string, argument: string)

  /** Which collaborators are configured. */
  datatype Deps = Deps(notifier: bool, cases: bool, hunter: bool, commander: bool)

  datatype RunRecord = RunRecord(playbook: string, mode: Mode, steps: nat)

  predicate ContainsFold(items: seq<string>, want: string) {
    exists i :: 0 <= i < |items| && EqualFold(items[i], want)
  }

  /** An unset condition is a wildcard; the set ones must all hold. */
  predicate Matches(t: Trigger, a: Alert) {
    && (t.incidentsOnly ==> a.isIncident)
    && a.riskScore >= t.minRisk
    && (t.ruleIDs != [] ==> a.ruleID in t.ruleIDs)
    && (t.severities != [] ==> ContainsFold(t.severities, a.severity))
    && (t.techniques != [] ==> a.technique in t.techniques)
  }

  predicate Runs(p: Playbook, a: Alert) {
    p.mode != ModeOff && Matches(p.trigger, a)
  }

  function CommandOf(a: Alert, kind: StepType): (e: Option<Effect>) {
    match kind
    case KillProcess => Some(Enqueued(a.agentID, "KILL_PROCESS", FormatNat(a.pid)))
    case Quarantine => if a.destination == "" then None else Some(Enqueued(a.agentID, "QUARANTINE", a.destination))
    case _ => None
  }

  /** The effects of one step; in a dry run only a hunt has any. */
  function StepEffects(d: Deps, s: Step, a: Alert, dryRun: bool): (es: seq<Effect>) {
    if dryRun && s.kind != RunHunt then []
    else
      match s.kind
      case Notify => if d.notifier then [Notified] else []
      case OpenCase => if d.cases then [CaseOpened] else []
      case RunHunt => if d.hunter then [Hunted(s.query)] else []
      case Unknown(_) => []
      case _ => if d.commander then AsSeq(CommandOf(a, s.kind)) else []
  }

  function StepsEffects(d: Deps, steps: seq<Step>, a: Alert, dryRun: bool): (es: seq<Effect>) {
    if steps == [] then []
    else StepsEffects(d, steps[..|steps| - 1], a, dryRun) + StepEffects(d, steps[|steps| - 1], a, dryRun)
  }

  function PlaybookEffects(d: Deps, p: Playbook, a: Alert): (es: seq<Effect>) {
    if Runs(p, a) then StepsEffects(d, p.steps, a, p.mode != ModeEnforce) else []
  }

  function AlertEffects(d: Deps, playbooks: seq<Playbook>, a: Alert): (es: seq<Effect>) {
    if playbooks == [] then []
    else AlertEffects(d, playbooks[..|playbooks| - 1], a) + PlaybookEffects(d, playbooks[|playbooks| - 1], a)
  }

  function PlaybookRuns(p: Playbook, a: Alert): (rs: seq<RunRecord>)
    ensures |rs| <= 1
  {
    if Runs(p, a) then [RunRecord(p.id, p.mode, |p.steps|)] else []
  }

  function AlertRuns(playbooks: seq<Playbook>, a: Alert): (rs: seq<RunRecord>) {
    if playbooks == [] then []
    else AlertRuns(playbooks[..|playbooks| - 1], a) + PlaybookRuns(playbooks[|playbooks| - 1], a)
  }

  lemma AlertSnoc(d: Deps, playbooks: seq<Playbook>, i: nat, a: Alert)
    requires i < |playbooks|
    ensures AlertEffects(d, playbooks[..i + 1], a) ==
            AlertEffects(d, playbooks[..i], a) + PlaybookEffects(d, playbooks[i], a)
    ensures AlertRuns(playbooks[..i + 1], a) == AlertRuns(playbooks[..i], a) + PlaybookRuns(playbooks[i], a)
  {
    assert playbooks[..i + 1][..i] == playbooks[..i];
  }

  /** The most recent records. */
  function Kept(runs: seq<RunRecord>): (r: seq<RunRecord>) {
    if |runs| > MAX_RUNS then runs[|runs| - MAX_RUNS..] else runs
  }

  // ----- the object (server/soar/engine.go) -----

  class Engine {
    const deps: Deps
    const store: PlaybookStore
    var enabled: bool
    var history: seq<RunRecord>
    var effects: seq<Effect>

    constructor (deps: Deps, store: PlaybookStore)
      ensures Valid() && this.deps == deps && this.store == store && !enabled && history == [] && effects == []
    {
      this.deps, this.store, enabled, history, effects := deps, store, false, [], [];
    }

    method SetEnabled(on: bool)
      modifies `enabled
      ensures enabled == on
    {
      enabled := on;
    }

    method RunPlaybook(p: Playbook, a: Alert, forceDryRun: bool) returns (run: RunRecord)
      modifies `effects
      ensures effects == old(effects) + StepsEffects(deps, p.steps, a, forceDryRun || p.mode != ModeEnforce)
      ensures run == RunRecord(p.id, if forceDryRun then ModeDryRun else p.mode, |p.steps|)
    {
      var dryRun := forceDryRun || p.mode != ModeEnforce;
      for i := 0 to |p.steps|
        invariant effects == old(effects) + StepsEffects(deps, p.steps[..i], a, dryRun)
      {
        assert p.steps[..i + 1][..i] == p.steps[..i];
        effects := effects + StepEffects(deps, p.steps[i], a, dryRun);
      }
      assert p.steps[..|p.steps|] == p.steps;
      run := RunRecord(p.id, if forceDryRun then ModeDryRun else p.mode, |p.steps|);
    }

    method Record(run: RunRecord)
      modifies `history
      ensures history == Kept(old(history) + [run])
    {
      history := history + [run];
      if |history| > MAX_RUNS { history := history[|history| - MAX_RUNS..]; }
    }

    ghost predicate Valid()
      reads this
    {
      |history| <= MAX_RUNS
    }

    method RunIfMatching(p: Playbook, a: Alert)
      requires Valid()
      modifies `effects, `history
      ensures Valid() && effects == old(effects) + PlaybookEffects(deps, p, a)
      ensures history == Kept(old(history) + PlaybookRuns(p, a))
    {
      if Runs(p, a) {
        var run := RunPlaybook(p, a, false);
        Record(run);
      }
    }

    /** Runs the playbooks listed when the alert arrives, if the engine is enabled then. */
    method Observe(a: Alert)
      requires Valid() && store.Valid()
      modifies `effects, `history
      ensures Valid()
      ensures effects == old(effects) + (if enabled then AlertEffects(deps, Listing(store.Contents()), a) else [])
      ensures history ==
              if enabled then Kept(old(history) + AlertRuns(Listing(store.Contents()), a)) else old(history)
    {
      if !enabled { return; }
      var playbooks := store.List();
      RunAll(playbooks, a);
    }

    method RunAll(playbooks: seq<Playbook>, a: Alert)
      requires Valid()
      modifies `effects, `history
      ensures Valid() && effects == old(effects) + AlertEffects(deps, playbooks, a)
      ensures history == Kept(old(history) + AlertRuns(playbooks, a))
    {
      for i := 0 to |playbooks|
        invariant Valid() && effects == old(effects) + AlertEffects(deps, playbooks[..i], a)
        invariant history == Kept(old(history) + AlertRuns(playbooks[..i], a))
      {
        AlertSnoc(deps, playbooks, i, a);
        Assoc(old(effects), AlertEffects(deps, playbooks[..i], a), PlaybookEffects(deps, playbooks[i], a));
        Assoc(old(history), AlertRuns(playbooks[..i], a), PlaybookRuns(playbooks[i], a));
        KeptTwice(old(history) + AlertRuns(playbooks[..i], a), PlaybookRuns(playbooks[i], a));
        RunIfMatching(playbooks[i], a);
      }
      assert playbooks[..|playbooks|] == playbooks;
    }

    /** The rehearsal: a forced dry run of one stored playbook. */
    method Test(id: string, a: Alert) returns (run: Option<RunRecord>)
      requires Valid()
      modifies `effects, `history
      ensures Valid() && run.Some? == (id in store.byID)
      ensures effects == old(effects) + (if run.Some? then StepsEffects(deps, store.byID[id].steps, a, true) else [])
      ensures history == (if run.Some? then Kept(old(history) + [run.value]) else old(history))
    {
      var p := store.Get(id);
      if p.None? { return None; }
      var r := RunPlaybook(p.value, a, true);
      Record(r);
      return Some(r);
    }
  }

  /** The history is the end of all that was recorded, and all of it up to the limit. */
  lemma NewestKept(runs: seq<RunRecord>)
    ensures |Kept(runs)| == if |runs| < 200 then |runs| else 200
    ensures runs[|runs| - |Kept(runs)|..] == Kept(runs)
  {
  }

  lemma KeptTwice(runs: seq<RunRecord>, rs: seq<RunRecord>)
    requires |rs| <= 1
    ensures Kept(Kept(runs) + rs) == Kept(runs + rs)
  {
  }

  // ----- what playbooks may do -----

  lemma {:induction false} StepsEffectsMembers(d: Deps, steps: seq<Step>, a: Alert, dryRun: bool, e: Effect)
    ensures e in StepsEffects(d, steps, a, dryRun) <==>
            exists i :: 0 <= i < |steps| && e in StepEffects(d, steps[i], a, dryRun)
  {
    if steps != [] {
      var init, last := steps[..|steps| - 1], steps[|steps| - 1];
      StepsEffectsMembers(d, init, a, dryRun, e);
      assert forall i :: 0 <= i < |init| ==> steps[i] == init[i];
      if e in StepEffects(d, last, a, dryRun) { assert e in StepEffects(d, steps[|steps| - 1], a, dryRun); }
    }
  }

  /** The playbook runs on the alert, and a step of it has this effect. */
  ghost predicate Causes(d: Deps, p: Playbook, a: Alert, e: Effect) {
    Runs(p, a) && e in StepsEffects(d, p.steps, a, p.mode != ModeEnforce)
  }

  lemma {:induction false} AlertEffectsMembers(d: Deps, playbooks: seq<Playbook>, a: Alert, e: Effect)
    ensures e in AlertEffects(d, playbooks, a) <==>
            exists i :: 0 <= i < |playbooks| && Causes(d, playbooks[i], a, e)
  {
    if playbooks != [] {
      var init, last := playbooks[..|playbooks| - 1], playbooks[|playbooks| - 1];
      AlertEffectsMembers(d, init, a, e);
      LastCauses(d, playbooks, a, e);
    }
  }

  lemma LastCauses(d: Deps, playbooks: seq<Playbook>, a: Alert, e: Effect)
    requires playbooks != []
    ensures
      var init := playbooks[..|playbooks| - 1];
      (exists i :: 0 <= i < |playbooks| && Causes(d, playbooks[i], a, e)) <==>
      (exists i :: 0 <= i < |init| && Causes(d, init[i], a, e)) || Causes(d, playbooks[|playbooks| - 1], a, e)
  {
    var init := playbooks[..|playbooks| - 1];
    if i :| 0 <= i < |init| && Causes(d, init[i], a, e) { assert Causes(d, playbooks[i], a, e); }
    if i :| 0 <= i < |playbooks| && Causes(d, playbooks[i], a, e) {
      if i < |init| { assert Causes(d, init[i], a, e); }
    }
  }

  /** Nothing the trigger asks for is missing: incidents, the risk, and, where any are listed, the
      rule, the severity in some spelling, the technique. */
  ghost predicate SetsOff(t: Trigger, a: Alert) {
    && (a.isIncident || !t.incidentsOnly)
    && t.minRisk <= a.riskScore
    && (|t.ruleIDs| > 0 ==> exists i :: 0 <= i < |t.ruleIDs| && t.ruleIDs[i] == a.ruleID)
    && (|t.severities| > 0 ==> exists i :: 0 <= i < |t.severities| && Lower(t.severities[i]) == Lower(a.severity))
    && (|t.techniques| > 0 ==> exists i :: 0 <= i < |t.techniques| && t.techniques[i] == a.technique)
  }

  lemma MatchesExactly(t: Trigger, a: Alert)
    ensures Matches(t, a) <==> SetsOff(t, a)
  {
  }

  /** The command a step of this kind is for: killing the alert's process, or blocking its
      destination if it has one, on the alert's agent. */
  predicate Orders(s: Step, a: Alert, e: Effect) {
    e.Enqueued? && e.agentID == a.agentID &&
    if s.kind == KillProcess then e.kind == "KILL_PROCESS" && e.argument == FormatNat(a.pid)
    else s.kind == Quarantine && a.destination != "" && e.kind == "QUARANTINE" && e.argument == a.destination
  }

  /** A playbook that may queue the command: in enforce, matching, with a step for it. */
  ghost predicate Queues(p: Playbook, a: Alert, e: Effect) {
    p.mode == ModeEnforce && SetsOff(p.trigger, a) && exists i :: 0 <= i < |p.steps| && Orders(p.steps[i], a, e)
  }

  lemma StepQueues(d: Deps, s: Step, a: Alert, dryRun: bool, e: Effect)
    requires e.Enqueued?
    ensures e in StepEffects(d, s, a, dryRun) <==> !dryRun && d.commander && Orders(s, a, e)
  {
  }

  /** Every effect has its own kind of step and its own collaborator, and only hunting is done in
      a dry run. */
  predicate Brings(d: Deps, s: Step, a: Alert, dryRun: bool, e: Effect) {
    match e
    case Notified => s.kind == Notify && d.notifier && !dryRun
    case CaseOpened => s.kind == OpenCase && d.cases && !dryRun
    case Hunted(query) => s.kind == RunHunt && d.hunter && query == s.query
    case Enqueued(_, _, _) => Orders(s, a, e) && d.commander && !dryRun
  }

  lemma StepBrings(d: Deps, s: Step, a: Alert, dryRun: bool, e: Effect)
    ensures e in StepEffects(d, s, a, dryRun) <==> Brings(d, s, a, dryRun, e)
  {
  }

  /** The playbook is not off, the alert sets it off, and a step of it brings the effect. */
  ghost predicate Does(d: Deps, p: Playbook, a: Alert, e: Effect) {
    && p.mode in {ModeDryRun, ModeEnforce} && SetsOff(p.trigger, a)
    && exists i :: 0 <= i < |p.steps| && Brings(d, p.steps[i], a, p.mode == ModeDryRun, e)
  }

  lemma CausesExactly(d: Deps, p: Playbook, a: Alert, e: Effect)
    ensures Causes(d, p, a, e) <==> Does(d, p, a, e)
  {
    MatchesExactly(p.trigger, a);
    var dry := p.mode != ModeEnforce;
    StepsEffectsMembers(d, p.steps, a, dry, e);
    forall i | 0 <= i < |p.steps|
      ensures e in StepEffects(d, p.steps[i], a, dry) <==> Brings(d, p.steps[i], a, dry, e)
    {
      StepBrings(d, p.steps[i], a, dry, e);
    }
  }

  /** What an alert brings about, whatever the effect. */
  lemma EffectsExactly(d: Deps, playbooks: seq<Playbook>, a: Alert, e: Effect)
    ensures e in AlertEffects(d, playbooks, a) <==> exists i :: 0 <= i < |playbooks| && Does(d, playbooks[i], a, e)
  {
    AlertEffectsMembers(d, playbooks, a, e);
    forall i | 0 <= i < |playbooks| ensures Causes(d, playbooks[i], a, e) <==> Does(d, playbooks[i], a, e) {
      CausesExactly(d, playbooks[i], a, e);
    }
  }

  /** A command reaches an agent's queue exactly when a commander is configured and some
      playbook in enforce mode matches the alert and has a step that yields it. */
  lemma EnqueuedExactly(d: Deps, playbooks: seq<Playbook>, a: Alert, e: Effect)
    requires e.Enqueued?
    ensures e in AlertEffects(d, playbooks, a) <==>
            d.commander && exists i :: 0 <= i < |playbooks| && Queues(playbooks[i], a, e)
  {
    AlertEffectsMembers(d, playbooks, a, e);
    forall i | 0 <= i < |playbooks|
      ensures Causes(d, playbooks[i], a, e) <==>
              d.commander && Queues(playbooks[i], a, e)
    {
      PlaybookQueues(d, playbooks[i], a, e);
    }
  }

  lemma PlaybookQueues(d: Deps, p: Playbook, a: Alert, e: Effect)
    requires e.Enqueued?
    ensures (Runs(p, a) && e in StepsEffects(d, p.steps, a, p.mode != ModeEnforce)) <==> d.commander && Queues(p, a, e)
  {
    var dry := p.mode != ModeEnforce;
    StepsEffectsMembers(d, p.steps, a, dry, e);
    forall i | 0 <= i < |p.steps|
      ensures e in StepEffects(d, p.steps[i], a, dry) <==>
              !dry && d.commander && Orders(p.steps[i], a, e)
    {
      StepQueues(d, p.steps[i], a, dry, e);
    }
    MatchesExactly(p.trigger, a);
  }

  /** A dry run does nothing but hunt. */
  lemma DryRunOnlyHunts(d: Deps, steps: seq<Step>, a: Alert, e: Effect)
    requires e in StepsEffects(d, steps, a, true)
    ensures e.Hunted?
  {
    StepsEffectsMembers(d, steps, a, true, e);
    var i :| 0 <= i < |steps| && e in StepEffects(d, steps[i], a, true);
  }
}
