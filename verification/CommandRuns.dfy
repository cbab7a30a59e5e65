/** Commands from end to end: the playbook engine and the operators queue them in the control
    plane, agents drain them with their heartbeats, and the responder acts on them. */
module CommandRuns {
  import opened Text
  import Playbooks
  import Soar
  import SoarRuns
  import FleetStore
  import FleetRuns
  import Responder
  import ResponderRuns

  /** A step of the engine, or a store call made by anyone else. */
  datatype Step = Engine(action: SoarRuns.Action) | Fleet(step: FleetRuns.Step)

  datatype World = World(engine: SoarRuns.World, fleet: FleetRuns.World)

  const START := World(SoarRuns.START, FleetRuns.START)

  function Queueing(id: string, kind: string, argument: string): (s: FleetRuns.Step) {
    FleetRuns.Enqueue(id, FleetStore.Command(kind, argument))
  }

  /** The store calls that one effect of the engine makes. */
  function EffectSteps(e: Soar.Effect): (steps: seq<FleetRuns.Step>) {
    if e.Enqueued? then [Queueing(e.agentID, e.kind, e.argument)] else []
  }

  /** The store calls of one action; a step of a playbook has at most one effect. */
  function ActionSteps(d: Soar.Deps, w: SoarRuns.World, a: SoarRuns.Action): (steps: seq<FleetRuns.Step>)
    requires SoarRuns.Allowed(w, a)
    ensures |steps| <= 1
  {
    if !a.Act? then []
    else
      var es := SoarRuns.NextEffects(d, w.flights[a.f]);
      if es == [] then [] else EffectSteps(es[0])
  }

  function StoreSteps(d: Soar.Deps, w: World, s: Step): (steps: seq<FleetRuns.Step>)
    requires Allowed(w, s)
    ensures |steps| <= 1 && forall i :: 0 <= i < |steps| ==> FleetRuns.Enabled(w.fleet, steps[i])
  {
    match s
    case Engine(a) => ActionSteps(d, w.engine, a)
    case Fleet(step) => [step]
  }

  predicate Allowed(w: World, s: Step) {
    match s
    case Engine(a) => SoarRuns.Allowed(w.engine, a)
    case Fleet(step) => FleetRuns.Enabled(w.fleet, step)
  }

  ghost predicate Sound(w: World) {
    Playbooks.Sound(w.engine.library)
  }

  ghost function Apply(d: Soar.Deps, w: World, s: Step): (w': World)
    requires Sound(w) && Allowed(w, s)
    ensures Sound(w')
  {
    var steps := StoreSteps(d, w, s);
    World(if s.Engine? then SoarRuns.Apply(d, w.engine, s.action) else w.engine,
          if steps == [] then w.fleet else FleetRuns.Apply(w.fleet, steps[0]))
  }

  ghost predicate Valid(d: Soar.Deps, run: seq<Step>)
    decreases |run|, 0
  {
    run == [] || (Valid(d, Init(run)) && Allowed(After(d, Init(run)), run[|run| - 1]))
  }

  ghost function After(d: Soar.Deps, run: seq<Step>): (w: World)
    requires Valid(d, run)
    ensures Sound(w)
    decreases |run|, 1
  {
    if run == [] then START else Apply(d, After(d, Init(run)), run[|run| - 1])
  }

  // ----- the two parts of a run -----

  lemma EngineGrows(d: Soar.Deps, actions: seq<SoarRuns.Action>, a: SoarRuns.Action)
    requires SoarRuns.Valid(d, actions) && SoarRuns.Allowed(SoarRuns.After(d, actions), a)
    ensures SoarRuns.Valid(d, actions + [a])
    ensures SoarRuns.After(d, actions + [a]) == SoarRuns.Apply(d, SoarRuns.After(d, actions), a)
  {
    assert Init(actions + [a]) == actions;
  }

  lemma FleetGrows(steps: seq<FleetRuns.Step>, s: FleetRuns.Step)
    requires FleetRuns.Valid(steps) && FleetRuns.Enabled(FleetRuns.After(steps), s)
    ensures FleetRuns.Valid(steps + [s])
    ensures FleetRuns.After(steps + [s]) == FleetRuns.Apply(FleetRuns.After(steps), s)
  {
    assert Init(steps + [s]) == steps;
  }

  /** What the engine did is a run of the engine. */
  ghost function EnginePart(d: Soar.Deps, run: seq<Step>): (actions: seq<SoarRuns.Action>)
    requires Valid(d, run)
    ensures SoarRuns.Valid(d, actions) && SoarRuns.After(d, actions) == After(d, run).engine
  {
    if run == [] then []
    else
      var actions, s := EnginePart(d, Init(run)), run[|run| - 1];
      if s.Fleet? then actions
      else
        EngineGrows(d, actions, s.action);
        actions + [s.action]
  }

  /** What happened to the store is a run of the store. */
  ghost function FleetPart(d: Soar.Deps, run: seq<Step>): (steps: seq<FleetRuns.Step>)
    requires Valid(d, run)
    ensures FleetRuns.Valid(steps) && FleetRuns.After(steps) == After(d, run).fleet
  {
    if run == [] then []
    else
      var steps, more := FleetPart(d, Init(run)), StoreSteps(d, After(d, Init(run)), run[|run| - 1]);
      if more == [] then steps
      else
        FleetGrows(steps, more[0]);
        steps + [more[0]]
  }

  // ----- who queued a command -----

  /** Some flight of the engine had this command as an effect. */
  ghost predicate Acted(log: seq<SoarRuns.Entry>, e: Soar.Effect) {
    exists f :: SoarRuns.Entry(f, e) in log
  }

  lemma FleetPartMore(d: Soar.Deps, run: seq<Step>, x: FleetRuns.Step)
    requires Valid(d, run) && run != []
    ensures x in FleetPart(d, run) <==>
            x in FleetPart(d, Init(run)) || x in StoreSteps(d, After(d, Init(run)), run[|run| - 1])
  {
  }

  /** The store calls that queue a command are those made by operators and those the engine's
      flights made. */
  lemma {:induction false} QueueingExactly(d: Soar.Deps, run: seq<Step>, id: string, kind: string, argument: string)
    requires Valid(d, run)
    ensures Queueing(id, kind, argument) in FleetPart(d, run) <==>
            Fleet(Queueing(id, kind, argument)) in run ||
              Acted(After(d, run).engine.log, Soar.Enqueued(id, kind, argument))
  {
    if run != [] {
      QueueingExactly(d, Init(run), id, kind, argument);
      InitLast(run);
      FleetPartMore(d, run, Queueing(id, kind, argument));
      StepQueues(d, After(d, Init(run)), run[|run| - 1], id, kind, argument);
    }
  }

  lemma OneEffect(d: Soar.Deps, job: SoarRuns.Job, a: Soar.Alert)
    ensures |SoarRuns.JobEffects(d, job, a)| <= 1
  {
  }

  lemma StepQueues(d: Soar.Deps, w: World, s: Step, id: string, kind: string, argument: string)
    requires Sound(w) && Allowed(w, s)
    ensures
      var e := Soar.Enqueued(id, kind, argument);
      Acted(Apply(d, w, s).engine.log, e) || s == Fleet(Queueing(id, kind, argument)) <==>
      Acted(w.engine.log, e) || s == Fleet(Queueing(id, kind, argument)) ||
        Queueing(id, kind, argument) in StoreSteps(d, w, s)
  {
    var e := Soar.Enqueued(id, kind, argument);
    if s.Engine? && s.action.Act? {
      var fl := w.engine.flights[s.action.f];
      OneEffect(d, SoarRuns.Plan(fl)[fl.taken], fl.alert);
      EntriesActed(w.engine.log, s.action.f, SoarRuns.NextEffects(d, fl), e);
    }
  }

  lemma EntriesActed(log: seq<SoarRuns.Entry>, f: nat, es: seq<Soar.Effect>, e: Soar.Effect)
    ensures Acted(log + SoarRuns.Entries(f, es), e) <==> Acted(log, e) || e in es
  {
    if g: nat :| SoarRuns.Entry(g, e) in log { assert SoarRuns.Entry(g, e) in log + SoarRuns.Entries(f, es); }
    if e in es {
      var i :| 0 <= i < |es| && es[i] == e;
      assert SoarRuns.Entries(f, es)[i] == SoarRuns.Entry(f, e);
    }
  }

  /** An operator queued it, or a playbook ordered it: for an alert that arrived while the
      engine was on, under a matching playbook stored in enforce with a step that yields it. */
  ghost predicate Explained(d: Soar.Deps, run: seq<Step>, id: string, cmd: FleetStore.Command)
    requires Valid(d, run)
  {
    || Fleet(FleetRuns.Enqueue(id, cmd)) in run
    || exists f :: SoarRuns.Ordered(d, EnginePart(d, run), f, Soar.Enqueued(id, cmd.kind, cmd.argument))
  }

  /** Once the engine is at rest, the store was asked to queue a command exactly when an
      operator asked for it or a playbook ordered it. */
  lemma AskedExactly(d: Soar.Deps, run: seq<Step>, id: string, cmd: FleetStore.Command)
    requires Valid(d, run) && SoarRuns.Settled(After(d, run).engine)
    ensures FleetRuns.Enqueue(id, cmd) in FleetPart(d, run) <==> Explained(d, run, id, cmd)
  {
    var e := Soar.Enqueued(id, cmd.kind, cmd.argument);
    QueueingExactly(d, run, id, cmd.kind, cmd.argument);
    SoarRuns.QueuedExactly(d, EnginePart(d, run), e);
    assert forall f: nat :: SoarRuns.Ordered(d, EnginePart(d, run), f, e) ==>
      SoarRuns.Entry(f, e) in After(d, run).engine.log;
  }

  /** Every command an agent was ever sent, or has waiting, is explained. */
  lemma CommandsExplained(d: Soar.Deps, run: seq<Step>, id: string, cmd: FleetStore.Command)
    requires Valid(d, run)
    requires
      || cmd in FleetRuns.DeliveredCommands(FleetPart(d, run), id)
      || cmd in FleetStore.QueueOf(After(d, run).fleet.data, id)
    ensures Explained(d, run, id, cmd)
  {
    var steps := FleetPart(d, run);
    FleetRuns.QueueConserved(steps, id);
    assert cmd in FleetRuns.AcceptedCommands(steps, id);
    FleetRuns.AcceptedMembers(steps, id, cmd);
    QueueingExactly(d, run, id, cmd.kind, cmd.argument);
    if Fleet(FleetRuns.Enqueue(id, cmd)) !in run {
      var e := Soar.Enqueued(id, cmd.kind, cmd.argument);
      var f: nat :| SoarRuns.Entry(f, e) in After(d, run).engine.log;
      SoarRuns.QueuedWasOrdered(d, EnginePart(d, run), f, e);
    }
  }

  // ----- what a command asks of the responder -----

  lemma TrimDigits(s: string)
    requires AllDigits(s)
    ensures TrimSpace(s) == s
  {
    assert IsDigit(s[0]) && IsDigit(s[|s| - 1]);
  }

  /** What a playbook's step means for an alert: kill its process, or block its destination. */
  predicate Means(s: Playbooks.Step, a: Soar.Alert, r: Responder.Request) {
    match s.kind
    case KillProcess => r == Responder.ForKill(a.pid)
    case Quarantine => r == Responder.ForBlock(TrimSpace(a.destination))
    case _ => false
  }

  /** The agent whose alert it was is asked for just that: the command written by the engine is
      the one read by the responder. */
  lemma AskedAsMeant(s: Playbooks.Step, a: Soar.Alert, e: Soar.Effect)
    requires Soar.Orders(s, a, e)
    ensures e.agentID == a.agentID
    ensures Responder.AskOf(Responder.Command(e.kind, e.argument)).AskRequest?
    ensures Means(s, a, Responder.AskOf(Responder.Command(e.kind, e.argument)).request)
  {
    if s.kind == Playbooks.KillProcess { TrimDigits(FormatNat(a.pid)); }
  }

  // ----- what happens on a host -----

  function Received(c: Responder.Command): (cmd: FleetStore.Command) {
    FleetStore.Command(c.kind, c.argument)
  }

  /** The agent's responder hears only what the control plane sent to that agent: commands from
      its queue, and the UPDATE_RULES that a heartbeat puts in front of them. */
  ghost predicate HearsOnlySent(d: Soar.Deps, run: seq<Step>, id: string, local: seq<ResponderRuns.Step>)
    requires Valid(d, run)
  {
    forall i :: 0 <= i < |local| && local[i].Remote? ==>
      || local[i].command.kind == "UPDATE_RULES"
      || Received(local[i].command) in FleetRuns.DeliveredCommands(FleetPart(d, run), id)
  }

  /** The request was asked for by this command. */
  predicate Asks(c: Responder.Command, r: Responder.Request) {
    Responder.AskOf(c) == Responder.AskRequest(r)
  }

  /** Whatever happened on a host without an alert of its own was asked for by a command that
      an operator queued or a playbook ordered for that host, heard while the posture was
      enforce and within the ceiling. */
  lemma HostEffectsExplained(
    d: Soar.Deps, run: seq<Step>, id: string, c: ResponderRuns.Config, local: seq<ResponderRuns.Step>, i: nat)
    returns (command: Responder.Command)
    requires Valid(d, run)
    requires ResponderRuns.Valid(c, local) && HearsOnlySent(d, run, id, local)
    requires i < |ResponderRuns.After(c, local).log| && !ResponderRuns.After(c, local).log[i].flight.request.ForAlert?
    ensures Asks(command, ResponderRuns.After(c, local).log[i].flight.request)
    ensures Explained(d, run, id, Received(command))
    ensures ResponderRuns.After(c, local).log[i].flight.read == Responder.ENFORCE <= c.ceiling
  {
    var fl := ResponderRuns.After(c, local).log[i].flight;
    ResponderRuns.EffectsExplained(c, local, i);
    var n: nat :| ResponderRuns.ReadAt(c, local, n, fl);
    command := local[n].command;
    CommandsExplained(d, run, id, Received(command));
    ResponderRuns.PostureWithinCeiling(c, local[..n]);
  }
}
