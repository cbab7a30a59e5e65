/** Runs of the playbook engine: alerts are observed in goroutines of their own, so the switch
    and the playbooks may change between an alert's arrival, the listing of the playbooks and
    each step taken. */
module SoarRuns {
  import opened Text
  import opened Playbooks
  import opened Soar

  /** One step of a playbook, as an observation or a rehearsal takes it. */
  datatype Job = Job(playbook: Playbook, step: Step, dryRun: bool)

  /** An observation that found the engine on, or a rehearsal; `source` is what the store gave. */
  datatype Flight =
    | Waiting(alert: Alert)
    | Working(alert: Alert, source: seq<Playbook>, rehearsal: bool, taken: nat)

  datatype Entry = Entry(f: nat, effect: Effect)

  datatype World = World(enabled: bool, library: Library, flights: map<nat, Flight>, log: seq<Entry>)

  const START := World(false, EMPTY_LIBRARY, map[], [])

  datatype Action =
    | SetEnabled(on: bool)
    | Create(draft: Draft)
    | Update(id: string, draft: Draft)
    | Delete(id: string)
    | Arrive(f: nat, alert: Alert)
    | List(f: nat)
    | Rehearse(f: nat, id: string, alert: Alert)
    | Act(f: nat)

  // ----- what a flight has to do -----

  function PlaybookJobs(p: Playbook, dryRun: bool): (jobs: seq<Job>)
    ensures |jobs| == |p.steps| && forall i :: 0 <= i < |jobs| ==> jobs[i] == Job(p, p.steps[i], dryRun)
  {
    seq(|p.steps|, i requires 0 <= i < |p.steps| => Job(p, p.steps[i], dryRun))
  }

  function AlertJobs(playbooks: seq<Playbook>, a: Alert): (jobs: seq<Job>) {
    if playbooks == [] then []
    else
      var p := playbooks[|playbooks| - 1];
      AlertJobs(Init(playbooks), a) + (if Runs(p, a) then PlaybookJobs(p, p.mode != ModeEnforce) else [])
  }

  function RehearsalJobs(playbooks: seq<Playbook>): (jobs: seq<Job>) {
    if playbooks == [] then [] else PlaybookJobs(playbooks[0], true)
  }

  function Plan(fl: Flight): (jobs: seq<Job>)
    requires fl.Working?
  {
    if fl.rehearsal then RehearsalJobs(fl.source) else AlertJobs(fl.source, fl.alert)
  }

  function JobEffects(d: Deps, job: Job, a: Alert): (es: seq<Effect>) {
    StepEffects(d, job.step, a, job.dryRun)
  }

  function JobsEffects(d: Deps, jobs: seq<Job>, a: Alert): (es: seq<Effect>) {
    if jobs == [] then [] else JobsEffects(d, Init(jobs), a) + JobEffects(d, jobs[|jobs| - 1], a)
  }

  // ----- the machine -----

  predicate Allowed(w: World, s: Action) {
    match s
    case Arrive(f, _) => f !in w.flights
    case Rehearse(f, _, _) => f !in w.flights
    case List(f) => f in w.flights && w.flights[f].Waiting?
    case Act(f) => f in w.flights && Busy(w.flights[f])
    case _ => true
  }

  predicate Busy(fl: Flight) {
    fl.Working? && fl.taken < |Plan(fl)|
  }

  function Entries(f: nat, es: seq<Effect>): (log: seq<Entry>)
    ensures |log| == |es| && forall i :: 0 <= i < |es| ==> log[i] == Entry(f, es[i])
  {
    seq(|es|, i requires 0 <= i < |es| => Entry(f, es[i]))
  }

  function NextEffects(d: Deps, fl: Flight): (es: seq<Effect>)
    requires Busy(fl)
  {
    JobEffects(d, Plan(fl)[fl.taken], fl.alert)
  }

  ghost function Apply(d: Deps, w: World, s: Action): (w': World)
    requires Sound(w.library) && Allowed(w, s)
    ensures Sound(w'.library)
  {
    match s
    case SetEnabled(on) => w.(enabled := on)
    case Create(draft) =>
      CreateKeeps(w.library, draft);
      w.(library := Created(w.library, draft))
    case Update(id, draft) =>
      UpdateKeeps(w.library, id, draft);
      w.(library := Updated(w.library, id, draft))
    case Delete(id) => w.(library := Deleted(w.library, id))
    case Arrive(f, a) => if w.enabled then w.(flights := w.flights[f := Waiting(a)]) else w
    case List(f) => w.(flights := w.flights[f := Working(w.flights[f].alert, Listing(w.library), false, 0)])
    case Rehearse(f, id, a) =>
      if id in w.library.byID then w.(flights := w.flights[f := Working(a, [w.library.byID[id]], true, 0)]) else w
    case Act(f) =>
      var fl := w.flights[f];
      w.(flights := w.flights[f := fl.(taken := fl.taken + 1)], log := w.log + Entries(f, NextEffects(d, fl)))
  }

  ghost predicate Valid(d: Deps, run: seq<Action>)
    decreases |run|, 0
  {
    run == [] || (Valid(d, Init(run)) && Allowed(After(d, Init(run)), run[|run| - 1]))
  }

  ghost function After(d: Deps, run: seq<Action>): (w: World)
    requires Valid(d, run)
    ensures Sound(w.library)
    decreases |run|, 1
  {
    if run == [] then START else Apply(d, After(d, Init(run)), run[|run| - 1])
  }

  lemma {:induction false} PrefixesValid(d: Deps, run: seq<Action>, n: nat)
    requires Valid(d, run) && n <= |run|
    ensures Valid(d, run[..n])
  {
    if n < |run| {
      PrefixesValid(d, Init(run), n);
      assert Init(run)[..n] == run[..n];
    } else {
      assert run[..n] == run;
    }
  }

  /** The world before the n-th action. */
  ghost function At(d: Deps, run: seq<Action>, n: nat): (w: World)
    requires Valid(d, run) && n <= |run|
    ensures Sound(w.library)
  {
    PrefixesValid(d, run, n);
    After(d, run[..n])
  }

  lemma AtInit(d: Deps, run: seq<Action>, n: nat)
    requires Valid(d, run) && n < |run|
    ensures At(d, run, n) == At(d, Init(run), n)
  {
    PrefixesValid(d, run, n);
    assert Init(run)[..n] == run[..n];
  }

  lemma AtEnd(d: Deps, run: seq<Action>)
    requires Valid(d, run)
    ensures At(d, run, |run|) == After(d, run)
    ensures run != [] ==> At(d, run, |run| - 1) == After(d, Init(run))
  {
    assert run[..|run|] == run;
    if run != [] { PrefixesValid(d, run, |run| - 1); }
  }

  // ----- a flight does what it planned, in order -----

  /** The effects of one flight. */
  function EffectsOf(log: seq<Entry>, f: nat): (es: seq<Effect>) {
    if log == [] then []
    else
      var x := log[|log| - 1];
      EffectsOf(Init(log), f) + (if x.f == f then [x.effect] else [])
  }

  lemma {:induction false} EffectsOfMore(log: seq<Entry>, g: nat, es: seq<Effect>, f: nat)
    ensures EffectsOf(log + Entries(g, es), f) == EffectsOf(log, f) + (if f == g then es else [])
    decreases |es|
  {
    if es == [] {
      assert log + Entries(g, es) == log;
    } else {
      EffectsOfMore(log, g, Init(es), f);
      var more := log + Entries(g, es);
      assert Init(more) == log + Entries(g, Init(es)) && more[|more| - 1] == Entry(g, es[|es| - 1]);
      InitLast(es);
      if f == g { Assoc(EffectsOf(log, f), Init(es), [es[|es| - 1]]); }
    }
  }

  lemma {:induction false} EffectsOfMembers(log: seq<Entry>, f: nat, e: Effect)
    ensures e in EffectsOf(log, f) <==> Entry(f, e) in log
  {
    if log != [] {
      EffectsOfMembers(Init(log), f, e);
      InitLast(log);
    }
  }

  /** What a flight has done by now. */
  ghost predicate OnPlan(d: Deps, w: World, f: nat) {
    if f !in w.flights || w.flights[f].Waiting? then EffectsOf(w.log, f) == []
    else
      var fl := w.flights[f];
      fl.taken <= |Plan(fl)| && EffectsOf(w.log, f) == JobsEffects(d, Plan(fl)[..fl.taken], fl.alert)
  }

  lemma ActKeepsPlan(d: Deps, w: World, g: nat, f: nat)
    requires Sound(w.library) && Allowed(w, Act(g)) && OnPlan(d, w, f)
    ensures OnPlan(d, Apply(d, w, Act(g)), f)
  {
    var fl := w.flights[g];
    EffectsOfMore(w.log, g, NextEffects(d, fl), f);
    if f == g {
      var plan := Plan(fl);
      assert Init(plan[..fl.taken + 1]) == plan[..fl.taken];
    }
  }

  lemma OthersKeepPlan(d: Deps, w: World, s: Action, f: nat)
    requires Sound(w.library) && Allowed(w, s) && !s.Act? && OnPlan(d, w, f)
    ensures OnPlan(d, Apply(d, w, s), f)
  {
  }

  /** At every moment of every run, whatever the other flights, the switch and the playbooks
      did meanwhile, a flight has had exactly the effects of the jobs it has taken, in order. */
  lemma {:induction false} EveryFlightOnPlan(d: Deps, run: seq<Action>, f: nat)
    requires Valid(d, run)
    ensures OnPlan(d, After(d, run), f)
  {
    if run != [] {
      EveryFlightOnPlan(d, Init(run), f);
      var w, s := After(d, Init(run)), run[|run| - 1];
      if s.Act? {
        ActKeepsPlan(d, w, s.f, f);
      } else {
        OthersKeepPlan(d, w, s, f);
      }
    }
  }

  // ----- the plan is what the engine promises -----

  lemma {:induction false} JobsConcat(d: Deps, xs: seq<Job>, ys: seq<Job>, a: Alert)
    ensures JobsEffects(d, xs + ys, a) == JobsEffects(d, xs, a) + JobsEffects(d, ys, a)
    decreases |ys|
  {
    if ys == [] {
      assert xs + ys == xs;
    } else {
      JobsConcat(d, xs, Init(ys), a);
      assert Init(xs + ys) == xs + Init(ys);
      Assoc(JobsEffects(d, xs, a), JobsEffects(d, Init(ys), a), JobEffects(d, ys[|ys| - 1], a));
    }
  }

  lemma {:induction false} PlaybookJobsEffects(d: Deps, p: Playbook, dryRun: bool, n: nat, a: Alert)
    requires n <= |p.steps|
    ensures JobsEffects(d, PlaybookJobs(p, dryRun)[..n], a) == StepsEffects(d, p.steps[..n], a, dryRun)
    decreases n
  {
    if n > 0 {
      PlaybookJobsEffects(d, p, dryRun, n - 1, a);
      assert Init(PlaybookJobs(p, dryRun)[..n]) == PlaybookJobs(p, dryRun)[..n - 1];
      assert p.steps[..n][..n - 1] == p.steps[..n - 1];
    }
  }

  lemma WholePlaybook(d: Deps, p: Playbook, dryRun: bool, a: Alert)
    ensures JobsEffects(d, PlaybookJobs(p, dryRun), a) == StepsEffects(d, p.steps, a, dryRun)
  {
    PlaybookJobsEffects(d, p, dryRun, |p.steps|, a);
    assert PlaybookJobs(p, dryRun)[..|p.steps|] == PlaybookJobs(p, dryRun) && p.steps[..|p.steps|] == p.steps;
  }

  lemma {:induction false} AlertJobsEffects(d: Deps, playbooks: seq<Playbook>, a: Alert)
    ensures JobsEffects(d, AlertJobs(playbooks, a), a) == AlertEffects(d, playbooks, a)
  {
    if playbooks != [] {
      AlertJobsEffects(d, Init(playbooks), a);
      var p := playbooks[|playbooks| - 1];
      if Runs(p, a) {
        JobsConcat(d, AlertJobs(Init(playbooks), a), PlaybookJobs(p, p.mode != ModeEnforce), a);
        WholePlaybook(d, p, p.mode != ModeEnforce, a);
      } else {
        assert AlertJobs(playbooks, a) == AlertJobs(Init(playbooks), a);
      }
    }
  }

  /** What a flight does from beginning to end. */
  function Promised(d: Deps, fl: Flight): (es: seq<Effect>)
    requires fl.Working?
  {
    if !fl.rehearsal then AlertEffects(d, fl.source, fl.alert)
    else if fl.source == [] then [] else StepsEffects(d, fl.source[0].steps, fl.alert, true)
  }

  lemma PlanIsPromised(d: Deps, fl: Flight)
    requires fl.Working?
    ensures JobsEffects(d, Plan(fl), fl.alert) == Promised(d, fl)
  {
    if !fl.rehearsal {
      AlertJobsEffects(d, fl.source, fl.alert);
    } else if fl.source != [] {
      WholePlaybook(d, fl.source[0], true, fl.alert);
    }
  }

  predicate Finished(fl: Flight) {
    fl.Working? && fl.taken == |Plan(fl)|
  }

  /** A finished flight had the effects of one undisturbed observation or rehearsal. */
  lemma FinishedAsPromised(d: Deps, run: seq<Action>, f: nat)
    requires Valid(d, run) && f in After(d, run).flights && Finished(After(d, run).flights[f])
    ensures EffectsOf(After(d, run).log, f) == Promised(d, After(d, run).flights[f])
  {
    EveryFlightOnPlan(d, run, f);
    var fl := After(d, run).flights[f];
    PlanIsPromised(d, fl);
    assert Plan(fl)[..fl.taken] == Plan(fl);
  }

  lemma FirstJobs(d: Deps, jobs: seq<Job>, k: nat, a: Alert, e: Effect)
    requires k <= |jobs| && e in JobsEffects(d, jobs[..k], a)
    ensures e in JobsEffects(d, jobs, a)
  {
    JobsConcat(d, jobs[..k], jobs[k..], a);
    assert jobs[..k] + jobs[k..] == jobs;
  }

  /** An unfinished one had a part of them. */
  lemma DoneWasPromised(d: Deps, run: seq<Action>, f: nat, e: Effect)
    requires Valid(d, run) && Entry(f, e) in After(d, run).log
    ensures f in After(d, run).flights && After(d, run).flights[f].Working?
    ensures e in Promised(d, After(d, run).flights[f])
  {
    EveryFlightOnPlan(d, run, f);
    EffectsOfMembers(After(d, run).log, f, e);
    var fl := After(d, run).flights[f];
    FirstJobs(d, Plan(fl), fl.taken, fl.alert, e);
    PlanIsPromised(d, fl);
  }

  // ----- where a flight came from -----

  /** The alert arrived while the engine was on, at n. */
  ghost predicate ArrivedAt(d: Deps, run: seq<Action>, n: nat, f: nat, a: Alert)
    requires Valid(d, run)
  {
    n < |run| && run[n] == Arrive(f, a) && At(d, run, n).enabled
  }

  /** It arrived while the engine was on, and the playbooks were listed later, at m. */
  ghost predicate Observed(d: Deps, run: seq<Action>, n: nat, m: nat, f: nat, a: Alert)
    requires Valid(d, run)
  {
    n < m < |run| && ArrivedAt(d, run, n, f, a) && run[m] == List(f)
  }

  ghost predicate RehearsedAt(d: Deps, run: seq<Action>, n: nat, f: nat, fl: Flight)
    requires Valid(d, run) && fl.Working?
  {
    n < |run| && run[n].Rehearse? && run[n].f == f && run[n].alert == fl.alert &&
    run[n].id in At(d, run, n).library.byID && fl.source == [At(d, run, n).library.byID[run[n].id]]
  }

  ghost predicate CameFrom(d: Deps, run: seq<Action>, f: nat, fl: Flight)
    requires Valid(d, run)
  {
    match fl
    case Waiting(a) => exists n :: ArrivedAt(d, run, n, f, a)
    case Working(a, source, rehearsal, _) =>
      if rehearsal then exists n :: RehearsedAt(d, run, n, f, fl)
      else exists n, m :: Observed(d, run, n, m, f, a) && source == Listing(At(d, run, m).library)
  }

  lemma ObservedGrows(d: Deps, run: seq<Action>, n: nat, m: nat, f: nat, a: Alert)
    requires Valid(d, run) && run != [] && Observed(d, Init(run), n, m, f, a)
    ensures Observed(d, run, n, m, f, a) && At(d, run, m) == At(d, Init(run), m)
  {
    AtInit(d, run, n);
    AtInit(d, run, m);
  }

  lemma RehearsedGrows(d: Deps, run: seq<Action>, n: nat, f: nat, fl: Flight)
    requires Valid(d, run) && run != [] && fl.Working? && RehearsedAt(d, Init(run), n, f, fl)
    ensures RehearsedAt(d, run, n, f, fl)
  {
    AtInit(d, run, n);
  }

  lemma CameFromGrows(d: Deps, run: seq<Action>, f: nat, fl: Flight)
    requires Valid(d, run) && run != [] && CameFrom(d, Init(run), f, fl)
    ensures CameFrom(d, run, f, fl)
  {
    var init := Init(run);
    if fl.Waiting? {
      var n: nat :| ArrivedAt(d, init, n, f, fl.alert);
      AtInit(d, run, n);
      assert ArrivedAt(d, run, n, f, fl.alert);
    } else if fl.rehearsal {
      var n: nat :| RehearsedAt(d, init, n, f, fl);
      RehearsedGrows(d, run, n, f, fl);
    } else {
      var n: nat, m: nat :| Observed(d, init, n, m, f, fl.alert) && fl.source == Listing(At(d, init, m).library);
      ObservedGrows(d, run, n, m, f, fl.alert);
    }
  }

  lemma JustListed(d: Deps, run: seq<Action>, f: nat, a: Alert)
    requires Valid(d, run) && run != [] && run[|run| - 1] == List(f)
    requires CameFrom(d, Init(run), f, Waiting(a))
    ensures CameFrom(d, run, f, Working(a, Listing(After(d, Init(run)).library), false, 0))
  {
    var n :| ArrivedAt(d, Init(run), n, f, a);
    AtInit(d, run, n);
    AtEnd(d, run);
    assert Observed(d, run, n, |run| - 1, f, a);
  }

  lemma JustStarted(d: Deps, run: seq<Action>, f: nat)
    requires Valid(d, run) && run != [] && f !in After(d, Init(run)).flights && f in After(d, run).flights
    ensures CameFrom(d, run, f, After(d, run).flights[f])
  {
    var fl, n := After(d, run).flights[f], |run| - 1;
    AtEnd(d, run);
    if fl.Waiting? {
      assert ArrivedAt(d, run, n, f, fl.alert);
    } else {
      assert RehearsedAt(d, run, n, f, fl);
    }
  }

  lemma CameFromSame(d: Deps, run: seq<Action>, f: nat, was: Flight, fl: Flight)
    requires Valid(d, run) && CameFrom(d, run, f, was) && Continues(was, fl) && was.Working? == fl.Working?
    ensures CameFrom(d, run, f, fl)
  {
    if fl.Working? && fl.rehearsal {
      var n: nat :| RehearsedAt(d, run, n, f, was);
      assert RehearsedAt(d, run, n, f, fl);
    }
  }

  lemma {:induction false} EveryFlightCameFrom(d: Deps, run: seq<Action>, f: nat)
    requires Valid(d, run) && f in After(d, run).flights
    ensures CameFrom(d, run, f, After(d, run).flights[f])
  {
    if run != [] {
      var w, s := After(d, Init(run)), run[|run| - 1];
      if f !in w.flights {
        JustStarted(d, run, f);
      } else {
        EveryFlightCameFrom(d, Init(run), f);
        if s == List(f) {
          JustListed(d, run, f, w.flights[f].alert);
        } else {
          CameFromGrows(d, run, f, w.flights[f]);
          FlightStep(d, w, s, f);
          CameFromSame(d, run, f, w.flights[f], After(d, run).flights[f]);
        }
      }
    }
  }

  /** The same observation or rehearsal, perhaps further on. */
  predicate Continues(was: Flight, fl: Flight) {
    && was.alert == fl.alert
    && (was.Working? ==> fl.Working? && fl.source == was.source && fl.rehearsal == was.rehearsal)
  }

  lemma FlightStep(d: Deps, w: World, s: Action, f: nat)
    requires Sound(w.library) && Allowed(w, s) && f in w.flights
    ensures f in Apply(d, w, s).flights && Continues(w.flights[f], Apply(d, w, s).flights[f])
  {
  }

  /** Flights are never forgotten or mixed up. */
  lemma {:induction false} FlightStays(d: Deps, run: seq<Action>, n: nat, f: nat)
    requires Valid(d, run) && n <= |run| && f in At(d, run, n).flights
    ensures f in After(d, run).flights && Continues(At(d, run, n).flights[f], After(d, run).flights[f])
  {
    AtEnd(d, run);
    if n < |run| {
      AtInit(d, run, n);
      FlightStays(d, Init(run), n, f);
      FlightStep(d, After(d, Init(run)), run[|run| - 1], f);
    }
  }

  lemma PrefixAt(d: Deps, run: seq<Action>, m: nat, n: nat)
    requires Valid(d, run) && n <= m <= |run| && Valid(d, run[..m])
    ensures At(d, run[..m], n) == At(d, run, n)
  {
    assert run[..m][..n] == run[..n];
  }

  lemma NextWorld(d: Deps, run: seq<Action>, n: nat)
    requires Valid(d, run) && n < |run|
    ensures Allowed(At(d, run, n), run[n]) && At(d, run, n + 1) == Apply(d, At(d, run, n), run[n])
  {
    PrefixesValid(d, run, n + 1);
    assert Init(run[..n + 1]) == run[..n];
  }

  lemma ArrivedWaits(d: Deps, run: seq<Action>, n: nat, m: nat, f: nat, a: Alert)
    requires Valid(d, run) && Observed(d, run, n, m, f, a)
    ensures f in At(d, run, m).flights && At(d, run, m).flights[f] == Waiting(a)
  {
    NextWorld(d, run, n);
    NextWorld(d, run, m);
    PrefixesValid(d, run, m);
    PrefixAt(d, run, m, n + 1);
    FlightStays(d, run[..m], n + 1, f);
  }

  /** The flight is an observation of this alert under these playbooks. */
  predicate Observes(w: World, f: nat, a: Alert, source: seq<Playbook>) {
    f in w.flights && w.flights[f].Working? && !w.flights[f].rehearsal &&
    w.flights[f].alert == a && w.flights[f].source == source
  }

  lemma ObservesOn(d: Deps, run: seq<Action>, n: nat, f: nat, a: Alert, source: seq<Playbook>)
    requires Valid(d, run) && n <= |run| && Observes(At(d, run, n), f, a, source)
    ensures Observes(After(d, run), f, a, source)
  {
    FlightStays(d, run, n, f);
  }

  lemma ListedObserves(d: Deps, run: seq<Action>, m: nat, f: nat, a: Alert)
    requires Valid(d, run) && m < |run| && run[m] == List(f)
    requires f in At(d, run, m).flights && At(d, run, m).flights[f] == Waiting(a)
    ensures Observes(After(d, run), f, a, Listing(At(d, run, m).library))
  {
    NextWorld(d, run, m);
    ObservesOn(d, run, m + 1, f, a, Listing(At(d, run, m).library));
  }

  /** Conversely, an alert that arrived while the engine was on and had the playbooks listed is
      a flight with those playbooks. */
  lemma ObservedFlies(d: Deps, run: seq<Action>, n: nat, m: nat, f: nat, a: Alert)
    requires Valid(d, run) && Observed(d, run, n, m, f, a)
    ensures Observes(After(d, run), f, a, Listing(At(d, run, m).library))
  {
    ArrivedWaits(d, run, n, m, f, a);
    ListedObserves(d, run, m, f, a);
  }

  // ----- what is queued for agents -----

  /** An alert was observed by flight f, arriving while the engine was on, and a playbook then
      stored, in enforce, matches it and has a step that yields this command. */
  ghost predicate Ordered(d: Deps, run: seq<Action>, f: nat, e: Effect)
    requires Valid(d, run)
  {
    d.commander && exists n, m, a :: Observed(d, run, n, m, f, a) && SomeQueues(At(d, run, m).library, a, e)
  }

  ghost predicate SomeQueues(l: Library, a: Alert, e: Effect) {
    exists id :: id in l.byID && Queues(l.byID[id], a, e)
  }

  lemma ListingQueues(d: Deps, l: Library, a: Alert, e: Effect)
    requires Sound(l) && e.Enqueued?
    ensures e in AlertEffects(d, Listing(l), a) <==> d.commander && SomeQueues(l, a, e)
  {
    var ps := Listing(l);
    EnqueuedExactly(d, ps, a, e);
    if i :| 0 <= i < |ps| && Queues(ps[i], a, e) {
      assert ps[i] in l.byID.Values;
    }
    if id :| id in l.byID && Queues(l.byID[id], a, e) {
      assert l.byID[id] in ps;
    }
  }

  predicate Rehearsal(w: World, f: nat) {
    f in w.flights && w.flights[f].Working? && w.flights[f].rehearsal
  }

  /** Every command ever queued was ordered. In particular no rehearsal queues one. */
  lemma QueuedWasOrdered(d: Deps, run: seq<Action>, f: nat, e: Effect)
    requires Valid(d, run) && e.Enqueued? && Entry(f, e) in After(d, run).log
    ensures Ordered(d, run, f, e) && !Rehearsal(After(d, run), f)
  {
    DoneWasPromised(d, run, f, e);
    EveryFlightCameFrom(d, run, f);
    var fl := After(d, run).flights[f];
    if fl.rehearsal {
      DryRunOnlyHunts(d, fl.source[0].steps, fl.alert, e);
    } else {
      var n, m :| Observed(d, run, n, m, f, fl.alert) && fl.source == Listing(At(d, run, m).library);
      ListingQueues(d, At(d, run, m).library, fl.alert, e);
    }
  }

  /** Every command ordered is queued by the time its flight has finished. */
  lemma OrderedIsQueued(d: Deps, run: seq<Action>, f: nat, e: Effect)
    requires Valid(d, run) && e.Enqueued? && Ordered(d, run, f, e)
    ensures f in After(d, run).flights
    ensures Finished(After(d, run).flights[f]) ==> Entry(f, e) in After(d, run).log
  {
    var n, m, a :| Observed(d, run, n, m, f, a) && SomeQueues(At(d, run, m).library, a, e);
    ObservedFlies(d, run, n, m, f, a);
    ListingQueues(d, At(d, run, m).library, a, e);
    if Finished(After(d, run).flights[f]) {
      FinishedAsPromised(d, run, f);
      EffectsOfMembers(After(d, run).log, f, e);
    }
  }

  ghost predicate Settled(w: World) {
    forall f :: f in w.flights ==> Finished(w.flights[f])
  }

  /** In a run that has come to rest, a command has been queued exactly when it was ordered. */
  lemma QueuedExactly(d: Deps, run: seq<Action>, e: Effect)
    requires Valid(d, run) && Settled(After(d, run)) && e.Enqueued?
    ensures forall f :: Entry(f, e) in After(d, run).log <==> Ordered(d, run, f, e)
  {
    forall f: nat ensures Entry(f, e) in After(d, run).log <==> Ordered(d, run, f, e) {
      if Entry(f, e) in After(d, run).log { QueuedWasOrdered(d, run, f, e); }
      if Ordered(d, run, f, e) { OrderedIsQueued(d, run, f, e); }
    }
  }

  /** A rehearsal does nothing but hunt, whatever mode its playbook is in. */
  lemma RehearsalsOnlyHunt(d: Deps, run: seq<Action>, f: nat, e: Effect)
    requires Valid(d, run) && Entry(f, e) in After(d, run).log && Rehearsal(After(d, run), f)
    ensures e.Hunted?
  {
    DoneWasPromised(d, run, f, e);
    var fl := After(d, run).flights[f];
    DryRunOnlyHunts(d, fl.source[0].steps, fl.alert, e);
  }

  lemma StaysOff(d: Deps, w: World, a: Action)
    requires Sound(w.library) && Allowed(w, a) && !w.enabled && a != SetEnabled(true)
    ensures !Apply(d, w, a).enabled
  {
  }

  lemma {:induction false} OffUntilSet(d: Deps, run: seq<Action>)
    requires Valid(d, run) && SetEnabled(true) !in run
    ensures !After(d, run).enabled
  {
    if run != [] {
      OffUntilSet(d, Init(run));
      StaysOff(d, After(d, Init(run)), run[|run| - 1]);
    }
  }

  /** An engine that was never switched on has only ever hunted, for rehearsals. */
  lemma NeverOnNeverActs(d: Deps, run: seq<Action>, f: nat, e: Effect)
    requires Valid(d, run) && SetEnabled(true) !in run && Entry(f, e) in After(d, run).log
    ensures Rehearsal(After(d, run), f) && e.Hunted?
  {
    DoneWasPromised(d, run, f, e);
    EveryFlightCameFrom(d, run, f);
    var fl := After(d, run).flights[f];
    if !fl.rehearsal {
      var n: nat, m: nat :| Observed(d, run, n, m, f, fl.alert);
      PrefixesValid(d, run, n);
      OffUntilSet(d, run[..n]);
      assert false;
    }
    RehearsalsOnlyHunt(d, run, f, e);
  }

  // ----- every effect, not only commands -----

  /** An alert was observed by flight f, and a playbook then stored does this for it. */
  ghost predicate Due(d: Deps, run: seq<Action>, f: nat, e: Effect)
    requires Valid(d, run)
  {
    exists n, m, a :: Observed(d, run, n, m, f, a) && SomeDoes(d, At(d, run, m).library, a, e)
  }

  ghost predicate SomeDoes(d: Deps, l: Library, a: Alert, e: Effect) {
    exists id :: id in l.byID && Does(d, l.byID[id], a, e)
  }

  lemma ListingDoes(d: Deps, l: Library, a: Alert, e: Effect)
    requires Sound(l)
    ensures e in AlertEffects(d, Listing(l), a) <==> SomeDoes(d, l, a, e)
  {
    var ps := Listing(l);
    EffectsExactly(d, ps, a, e);
    if i :| 0 <= i < |ps| && Does(d, ps[i], a, e) { assert ps[i] in l.byID.Values; }
    if id :| id in l.byID && Does(d, l.byID[id], a, e) { assert l.byID[id] in ps; }
  }

  lemma DoneWasDue(d: Deps, run: seq<Action>, f: nat, e: Effect)
    requires Valid(d, run) && Entry(f, e) in After(d, run).log && !Rehearsal(After(d, run), f)
    ensures Due(d, run, f, e)
  {
    DoneWasPromised(d, run, f, e);
    EveryFlightCameFrom(d, run, f);
    var fl := After(d, run).flights[f];
    var n: nat, m: nat :| Observed(d, run, n, m, f, fl.alert) && fl.source == Listing(At(d, run, m).library);
    ListingDoes(d, At(d, run, m).library, fl.alert, e);
  }

  lemma DueIsDone(d: Deps, run: seq<Action>, f: nat, e: Effect)
    requires Valid(d, run) && Due(d, run, f, e)
    ensures f in After(d, run).flights && !Rehearsal(After(d, run), f)
    ensures Finished(After(d, run).flights[f]) ==> Entry(f, e) in After(d, run).log
  {
    var n, m, a :| Observed(d, run, n, m, f, a) && SomeDoes(d, At(d, run, m).library, a, e);
    ObservedFlies(d, run, n, m, f, a);
    ListingDoes(d, At(d, run, m).library, a, e);
    if Finished(After(d, run).flights[f]) {
      FinishedAsPromised(d, run, f);
      EffectsOfMembers(After(d, run).log, f, e);
    }
  }

  /** In a run that has come to rest, a notification, a case, a hunt or a command has come of an
      observation exactly when it was due. */
  lemma DoneExactly(d: Deps, run: seq<Action>, f: nat, e: Effect)
    requires Valid(d, run) && Settled(After(d, run))
    ensures Entry(f, e) in After(d, run).log && !Rehearsal(After(d, run), f) <==> Due(d, run, f, e)
  {
    if Entry(f, e) in After(d, run).log && !Rehearsal(After(d, run), f) { DoneWasDue(d, run, f, e); }
    if Due(d, run, f, e) { DueIsDone(d, run, f, e); }
  }
}
