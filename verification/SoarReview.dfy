/** Which drafts may act before anyone has reviewed them: over every run of the engine, whatever
    acts goes back to a draft that asked for enforce, and every such draft can act. */
module SoarReview {
  import opened Text
  import opened Playbooks
  import opened Soar
  import opened SoarRuns

  // ----- where a stored playbook came from -----

  predicate Drafts(s: Action) {
    (s.Create? || s.Update?) && ValidDraft(s.draft)
  }

  /** The n-th action submitted the draft of this playbook. */
  ghost predicate DraftedAt(run: seq<Action>, n: nat, p: Playbook) {
    n < |run| && Drafts(run[n]) && p == Stored(p.id, run[n].draft)
  }

  ghost predicate Drafted(run: seq<Action>, p: Playbook) {
    exists n :: DraftedAt(run, n, p)
  }

  lemma DraftedGrows(run: seq<Action>, n: nat, p: Playbook)
    requires n <= |run| && Drafted(run[..n], p)
    ensures Drafted(run, p)
  {
    var m: nat :| DraftedAt(run[..n], m, p);
    assert DraftedAt(run, m, p);
  }

  lemma LibraryStep(d: Deps, w: World, s: Action, id: string)
    requires Playbooks.Sound(w.library) && Allowed(w, s) && id in Apply(d, w, s).library.byID
    ensures
      var p := Apply(d, w, s).library.byID[id];
      || (id in w.library.byID && p == w.library.byID[id])
      || (Drafts(s) && p == Stored(id, s.draft))
  {
  }

  lemma {:induction false} EveryPlaybookDrafted(d: Deps, run: seq<Action>, id: string)
    requires Valid(d, run) && id in After(d, run).library.byID
    ensures Drafted(run, After(d, run).library.byID[id])
  {
    assert run != [];
    var n, w := |run| - 1, After(d, Init(run));
    var p := After(d, run).library.byID[id];
    LibraryStep(d, w, run[n], id);
    if id in w.library.byID && p == w.library.byID[id] {
      EveryPlaybookDrafted(d, Init(run), id);
      DraftedGrows(run, n, p);
    } else {
      assert DraftedAt(run, n, p);
    }
  }

  // ----- acting takes an enforcing draft -----

  /** A step of this kind does more than hunt, when it is not simulated. */
  predicate StepActs(d: Deps, s: Step) {
    match s.kind
    case Notify => d.notifier
    case OpenCase => d.cases
    case KillProcess => d.commander
    case Quarantine => d.commander
    case _ => false
  }

  lemma ActingStep(d: Deps, s: Step, a: Alert, dryRun: bool, e: Effect)
    requires e in StepEffects(d, s, a, dryRun) && !e.Hunted?
    ensures !dryRun && StepActs(d, s)
  {
  }

  /** The draft is stored in enforce and has a step that acts. */
  ghost predicate MayAct(d: Deps, draft: Draft) {
    ValidDraft(draft) && draft.mode == "enforce" && exists i :: 0 <= i < |draft.steps| && StepActs(d, draft.steps[i])
  }

  lemma ActingPlaybook(d: Deps, p: Playbook, a: Alert, e: Effect, draft: Draft)
    requires Causes(d, p, a, e) && !e.Hunted? && ValidDraft(draft) && p == Stored(p.id, draft)
    ensures MayAct(d, draft)
  {
    var dryRun := p.mode != ModeEnforce;
    StepsEffectsMembers(d, p.steps, a, dryRun, e);
    var i :| 0 <= i < |p.steps| && e in StepEffects(d, p.steps[i], a, dryRun);
    ActingStep(d, p.steps[i], a, dryRun, e);
    assert StepActs(d, draft.steps[i]);
  }

  /** In every run, every effect but a hunt goes back to a draft, submitted earlier, that asked
      for enforce and has a step that acts. */
  lemma ActedWasDrafted(d: Deps, run: seq<Action>, f: nat, e: Effect) returns (n: nat)
    requires Valid(d, run) && Entry(f, e) in After(d, run).log && !e.Hunted?
    ensures n < |run| && (run[n].Create? || run[n].Update?) && MayAct(d, run[n].draft)
  {
    DoneWasPromised(d, run, f, e);
    EveryFlightCameFrom(d, run, f);
    var fl := After(d, run).flights[f];
    assert !fl.rehearsal by {
      if fl.rehearsal { RehearsalsOnlyHunt(d, run, f, e); }
    }
    var m: nat, l: nat :| Observed(d, run, m, l, f, fl.alert) && fl.source == Listing(At(d, run, l).library);
    AlertEffectsMembers(d, fl.source, fl.alert, e);
    var i :| 0 <= i < |fl.source| && Causes(d, fl.source[i], fl.alert, e);
    n := ListedWasDrafted(d, run, l, fl.source[i]);
    ActingPlaybook(d, fl.source[i], fl.alert, e, run[n].draft);
  }

  lemma ListedWasDrafted(d: Deps, run: seq<Action>, l: nat, p: Playbook) returns (n: nat)
    requires Valid(d, run) && l <= |run| && p in Listing(At(d, run, l).library)
    ensures DraftedAt(run, n, p)
  {
    PrefixesValid(d, run, l);
    var id :| id in After(d, run[..l]).library.byID && After(d, run[..l]).library.byID[id] == p;
    EveryPlaybookDrafted(d, run[..l], id);
    DraftedGrows(run, l, p);
    n :| DraftedAt(run, n, p);
  }

  // ----- an enforcing draft acts -----

  function FirstOr(xs: seq<string>): (s: string) {
    if xs == [] then "" else xs[0]
  }

  /** An alert that sets off a trigger. */
  function AlertFor(t: Trigger): (a: Alert)
    ensures Matches(t, a) && a.destination != ""
  {
    var a := Alert("agent-1", FirstOr(t.ruleIDs), FirstOr(t.severities), FirstOr(t.techniques), 7, "10.0.0.1",
      t.minRisk, true);
    assert t.severities != [] ==> EqualFold(t.severities[0], a.severity);
    a
  }

  /** Switch on, create the draft, observe an alert that sets it off. */
  function Begun(draft: Draft): (run: seq<Action>) {
    [SetEnabled(true)] + [Create(draft)] + [Arrive(0, AlertFor(draft.trigger))]
  }

  /** Perhaps switch off, and only then list the playbooks. */
  function Opening(draft: Draft, off: bool): (run: seq<Action>) {
    Begun(draft) + (if off then [SetEnabled(false)] else []) + [List(0)]
  }

  lemma Grows(d: Deps, run: seq<Action>, s: Action)
    requires Valid(d, run) && Allowed(After(d, run), s)
    ensures Valid(d, run + [s]) && After(d, run + [s]) == Apply(d, After(d, run), s)
  {
    assert Init(run + [s]) == run;
  }

  ghost predicate WaitingWorld(w: World, draft: Draft)
    requires ValidDraft(draft)
  {
    && w.library == Created(EMPTY_LIBRARY, draft) && w.log == []
    && w.flights == map[0 := Waiting(AlertFor(draft.trigger))]
  }

  lemma BegunWaits(d: Deps, draft: Draft)
    requires ValidDraft(draft)
    ensures Valid(d, Begun(draft)) && WaitingWorld(After(d, Begun(draft)), draft) && After(d, Begun(draft)).enabled
  {
    var s1, s2, s3 := SetEnabled(true), Create(draft), Arrive(0, AlertFor(draft.trigger));
    assert [] + [s1] == [s1];
    Grows(d, [], s1);
    Grows(d, [s1], s2);
    Grows(d, [s1] + [s2], s3);
  }

  /** The flight is under way with the new playbook among its playbooks. */
  ghost predicate UnderWay(w: World, draft: Draft, off: bool)
    requires ValidDraft(draft)
  {
    && w.log == [] && w.enabled == !off && 0 in w.flights && w.flights[0].Working? && !w.flights[0].rehearsal
    && w.flights[0].taken == 0 && w.flights[0].alert == AlertFor(draft.trigger)
    && Stored(PlaybookId(1), draft) in w.flights[0].source
  }

  lemma OpeningUnderWay(d: Deps, draft: Draft, off: bool)
    requires ValidDraft(draft)
    ensures Valid(d, Opening(draft, off)) && UnderWay(After(d, Opening(draft, off)), draft, off)
  {
    BegunWaits(d, draft);
    var run := Begun(draft);
    if off {
      Grows(d, run, SetEnabled(false));
      ListedUnderWay(d, run + [SetEnabled(false)], draft);
    } else {
      assert run + [] == run;
      ListedUnderWay(d, run, draft);
    }
  }

  lemma ListedUnderWay(d: Deps, run: seq<Action>, draft: Draft)
    requires ValidDraft(draft) && Valid(d, run) && WaitingWorld(After(d, run), draft)
    ensures Valid(d, run + [List(0)]) && UnderWay(After(d, run + [List(0)]), draft, !After(d, run).enabled)
  {
    Grows(d, run, List(0));
    var l, p := After(d, run).library, Stored(PlaybookId(1), draft);
    assert PlaybookId(1) in l.byID && l.byID[PlaybookId(1)] == p;
    assert p in Listing(l);
  }

  // ----- taking the steps -----

  function Acting(run: seq<Action>, n: nat): (r: seq<Action>)
    ensures run <= r
  {
    if n == 0 then run else Acting(run, n - 1) + [Act(0)]
  }

  ghost predicate HasTaken(w: World, fl: Flight, n: nat, on: bool)
    requires fl.Working?
  {
    w.enabled == on && 0 in w.flights && w.flights[0] == fl.(taken := n)
  }

  lemma OneAct(d: Deps, run: seq<Action>, fl: Flight, n: nat, on: bool)
    requires Valid(d, run) && fl.Working? && HasTaken(After(d, run), fl, n, on) && n < |Plan(fl)|
    ensures Valid(d, run + [Act(0)]) && HasTaken(After(d, run + [Act(0)]), fl, n + 1, on)
  {
    assert Plan(fl.(taken := n)) == Plan(fl);
    Grows(d, run, Act(0));
  }

  lemma {:induction false} ActsOn(d: Deps, run: seq<Action>, fl: Flight, n: nat, on: bool)
    requires Valid(d, run) && fl.Working? && HasTaken(After(d, run), fl, 0, on) && n <= |Plan(fl)|
    ensures Valid(d, Acting(run, n)) && HasTaken(After(d, Acting(run, n)), fl, n, on)
    decreases n
  {
    if n > 0 {
      ActsOn(d, run, fl, n - 1, on);
      OneAct(d, Acting(run, n - 1), fl, n - 1, on);
    }
  }

  /** The opening, and then every step of every playbook listed. */
  ghost function WholeRun(d: Deps, draft: Draft, off: bool): (run: seq<Action>)
    requires ValidDraft(draft)
  {
    OpeningUnderWay(d, draft, off);
    var run := Opening(draft, off);
    Acting(run, |Plan(After(d, run).flights[0])|)
  }

  lemma SomeEffect(d: Deps, draft: Draft) returns (e: Effect)
    requires MayAct(d, draft)
    ensures !e.Hunted? && Causes(d, Stored(PlaybookId(1), draft), AlertFor(draft.trigger), e)
  {
    var i :| 0 <= i < |draft.steps| && StepActs(d, draft.steps[i]);
    var a := AlertFor(draft.trigger);
    e := StepEffects(d, draft.steps[i], a, false)[0];
    StepsEffectsMembers(d, draft.steps, a, false, e);
  }

  /** Whatever the new playbook would do for its alert is done, with no other draft submitted, and
      even if the engine is switched off before the playbooks are listed. */
  lemma NewPlaybookActs(d: Deps, draft: Draft, off: bool, e: Effect)
    requires ValidDraft(draft) && Causes(d, Stored(PlaybookId(1), draft), AlertFor(draft.trigger), e)
    ensures Valid(d, WholeRun(d, draft, off)) && Entry(0, e) in After(d, WholeRun(d, draft, off)).log
    ensures After(d, WholeRun(d, draft, off)).enabled == !off
  {
    var open, run := Opening(draft, off), WholeRun(d, draft, off);
    OpeningUnderWay(d, draft, off);
    var fl := After(d, open).flights[0];
    ActsOn(d, open, fl, |Plan(fl)|, !off);
    assert Plan(fl.(taken := |Plan(fl)|)) == Plan(fl);
    FinishedAsPromised(d, run, 0);
    var p := Stored(PlaybookId(1), draft);
    var i :| 0 <= i < |fl.source| && fl.source[i] == p;
    assert Causes(d, fl.source[i], fl.alert, e);
    AlertEffectsMembers(d, fl.source, fl.alert, e);
    EffectsOfMembers(After(d, run).log, 0, e);
  }

  // ----- exactly which drafts are safe -----

  /** Nothing but this draft was submitted, and nothing was updated. */
  ghost predicate OnlyCreates(run: seq<Action>, draft: Draft) {
    forall s :: s in run ==> !s.Update? && (s.Create? ==> s.draft == draft)
  }

  lemma {:induction false} ActingCreates(run: seq<Action>, n: nat, draft: Draft)
    requires OnlyCreates(run, draft)
    ensures OnlyCreates(Acting(run, n), draft)
    decreases n
  {
    if n > 0 { ActingCreates(run, n - 1, draft); }
  }

  lemma OpeningCreates(draft: Draft, off: bool)
    ensures OnlyCreates(Opening(draft, off), draft)
  {
  }

  lemma WholeRunCreates(d: Deps, draft: Draft, off: bool)
    requires ValidDraft(draft)
    ensures OnlyCreates(WholeRun(d, draft, off), draft)
  {
    OpeningUnderWay(d, draft, off);
    OpeningCreates(draft, off);
    ActingCreates(Opening(draft, off), |Plan(After(d, Opening(draft, off)).flights[0])|, draft);
  }

  /** Until somebody updates it, the new playbook does nothing but hunt, in any run. */
  ghost predicate SafeUntilReviewed(d: Deps, draft: Draft) {
    forall run, f, e :: Valid(d, run) && OnlyCreates(run, draft) && Entry(f, e) in After(d, run).log ==> e.Hunted?
  }

  /** A draft is safe until reviewed exactly when it is refused, does not ask for enforce, or has
      no step that acts. */
  lemma SafeExactly(d: Deps, draft: Draft)
    ensures SafeUntilReviewed(d, draft) <==> !MayAct(d, draft)
  {
    if MayAct(d, draft) {
      var e := SomeEffect(d, draft);
      NewPlaybookActs(d, draft, false, e);
      WholeRunCreates(d, draft, false);
    } else {
      forall run, f, e | Valid(d, run) && OnlyCreates(run, draft) && Entry(f, e) in After(d, run).log
        ensures e.Hunted?
      {
        if !e.Hunted? { var n := ActedWasDrafted(d, run, f, e); }
      }
    }
  }

  // ----- one such run -----

  const KILL := Draft("kill it", "enforce", Trigger([], [], [], 0, false), [Step(KillProcess, "")])

  const ALL_DEPS := Deps(true, true, true, true)

  /** Created in enforce, never updated, the engine switched off before the playbooks were
      listed: the command is queued all the same. */
  lemma KillAfterSwitchOff()
    ensures ValidDraft(KILL) && SetEnabled(false) in WholeRun(ALL_DEPS, KILL, true)
    ensures Valid(ALL_DEPS, WholeRun(ALL_DEPS, KILL, true)) && !After(ALL_DEPS, WholeRun(ALL_DEPS, KILL, true)).enabled
    ensures Entry(0, Enqueued("agent-1", "KILL_PROCESS", "7")) in After(ALL_DEPS, WholeRun(ALL_DEPS, KILL, true)).log
  {
    assert TrimSpace("kill it") == "kill it";
    var e, a := Enqueued("agent-1", "KILL_PROCESS", "7"), AlertFor(KILL.trigger);
    assert FormatNat(7) == "7";
    assert KILL.steps[0] == Step(KillProcess, "");
    assert e in StepEffects(ALL_DEPS, KILL.steps[0], a, false);
    StepsEffectsMembers(ALL_DEPS, KILL.steps, a, false, e);
    NewPlaybookActs(ALL_DEPS, KILL, true, e);
    assert SetEnabled(false) in Opening(KILL, true);
    OpeningUnderWay(ALL_DEPS, KILL, true);
  }
}
