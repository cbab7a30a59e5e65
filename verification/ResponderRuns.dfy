/** Runs of the responder with many responses in flight: an alert or a remote command reads
    the posture when it arrives and acts later, while commands and pushed policies change the
    posture in between. The blocker's mutex makes one block a single step. */
module ResponderRuns {
  import opened Text
  import opened Model
  import opened Responder

  datatype Config = Config(start: Mode, ceiling: Mode, allow: Allowlist, valid: ValidIP)

  datatype Flight = Flight(request: Request, read: Mode)

  /** One effect on the host, with the flight that caused it. */
  datatype Entry = Entry(effect: Effect, flight: Flight)

  datatype World = World(mode: Mode, blocker: Blocker, flights: map<nat, Flight>, log: seq<Entry>)

  datatype Step =
    | AlertArrives(f: nat, alert: Alert)
    | Remote(f: nat, command: Command)
    | Pushed(files: seq<RuleFile>)
    | Finish(f: nat, outcome: Outcome)

  function Start(c: Config): (w: World) {
    World(ClampMode(c.start, c.ceiling), Blocker(false, {}), map[], [])
  }

  predicate Enabled(w: World, s: Step) {
    match s
    case AlertArrives(f, _) => f !in w.flights
    case Remote(f, _) => f !in w.flights
    case Pushed(_) => true
    case Finish(f, _) => f in w.flights
  }

  function Entries(es: seq<Effect>, flight: Flight): (log: seq<Entry>)
    ensures |log| == |es| && forall i :: 0 <= i < |es| ==> log[i] == Entry(es[i], flight)
  {
    seq(|es|, i requires 0 <= i < |es| => Entry(es[i], flight))
  }

  function Arrived(w: World, f: nat, r: Request): (w': World) {
    w.(flights := w.flights[f := Flight(r, w.mode)])
  }

  function Finished(c: Config, w: World, f: nat, o: Outcome): (w': World)
    requires f in w.flights
  {
    var fl := w.flights[f];
    var landed := w.(flights := w.flights - {f});
    if !Acts(fl.read, fl.request, c.allow) then landed
    else landed.(blocker := RequestBlocker(w.blocker, fl.request, c.valid, o),
                 log := w.log + Entries(RequestEffects(w.blocker, fl.request, c.valid, o), fl))
  }

  function Apply(c: Config, w: World, s: Step): (w': World)
    requires Enabled(w, s)
  {
    match s
    case AlertArrives(f, a) => Arrived(w, f, ForAlert(a))
    case Remote(f, command) =>
      (match AskOf(command)
       case AskMode(m) => w.(mode := ClampMode(m, c.ceiling))
       case AskRequest(r) => Arrived(w, f, r)
       case AskNothing => w)
    case Pushed(files) =>
      (if PolicyMode(files).Some? then w.(mode := ClampMode(PolicyMode(files).value, c.ceiling)) else w)
    case Finish(f, o) => Finished(c, w, f, o)
  }

  predicate Valid(c: Config, run: seq<Step>)
    decreases |run|, 0
  {
    run == [] || (Valid(c, Init(run)) && Enabled(After(c, Init(run)), run[|run| - 1]))
  }

  function After(c: Config, run: seq<Step>): (w: World)
    requires Valid(c, run)
    decreases |run|, 1
  {
    if run == [] then Start(c) else Apply(c, After(c, Init(run)), run[|run| - 1])
  }

  // ----- the posture ceiling -----

  /** The posture, and every posture a flight has read, is within the ceiling. */
  lemma {:induction false} PostureWithinCeiling(c: Config, run: seq<Step>)
    requires Valid(c, run)
    ensures After(c, run).mode <= c.ceiling
    ensures forall f :: f in After(c, run).flights ==> After(c, run).flights[f].read <= c.ceiling
  {
    if run != [] { PostureWithinCeiling(c, Init(run)); }
  }

  /** Some earlier world of the run had this posture when this request arrived. */
  ghost predicate ReadAt(c: Config, run: seq<Step>, n: nat, fl: Flight) {
    && n < |run| && Valid(c, run[..n]) && After(c, run[..n]).mode == fl.read
    && Brings(run[n], fl.request)
  }

  /** The step is the arrival of this request. */
  predicate Brings(s: Step, r: Request) {
    || (s.AlertArrives? && r == ForAlert(s.alert))
    || (s.Remote? && AskOf(s.command) == AskRequest(r))
  }

  ghost predicate WasRead(c: Config, run: seq<Step>, fl: Flight) {
    exists n :: ReadAt(c, run, n, fl)
  }

  lemma WasReadGrows(c: Config, run: seq<Step>, fl: Flight)
    requires run != [] && WasRead(c, Init(run), fl)
    ensures WasRead(c, run, fl)
  {
    var n: nat :| ReadAt(c, Init(run), n, fl);
    assert Init(run)[..n] == run[..n];
    assert ReadAt(c, run, n, fl);
  }

  lemma JustRead(c: Config, run: seq<Step>, f: nat)
    requires Valid(c, run) && run != [] && f in After(c, run).flights && f !in After(c, Init(run)).flights
    ensures WasRead(c, run, After(c, run).flights[f])
  {
    var n := |run| - 1;
    assert run[..n] == Init(run);
    assert ReadAt(c, run, n, After(c, run).flights[f]);
  }

  /** Everything the host suffered was caused by a request that acts under the posture it
      read, and that posture was in force when the request arrived. */
  ghost predicate Explained(c: Config, run: seq<Step>, fl: Flight) {
    Acts(fl.read, fl.request, c.allow) && WasRead(c, run, fl)
  }

  lemma {:induction false} FlightsWereRead(c: Config, run: seq<Step>, f: nat)
    requires Valid(c, run) && f in After(c, run).flights
    ensures WasRead(c, run, After(c, run).flights[f])
  {
    if run != [] {
      if f in After(c, Init(run)).flights {
        FlightsWereRead(c, Init(run), f);
        WasReadGrows(c, run, After(c, run).flights[f]);
      } else {
        JustRead(c, run, f);
      }
    }
  }

  lemma {:induction false} EffectsExplained(c: Config, run: seq<Step>, i: nat)
    requires Valid(c, run) && i < |After(c, run).log|
    ensures Explained(c, run, After(c, run).log[i].flight)
  {
    if run != [] {
      var w, s := After(c, Init(run)), run[|run| - 1];
      if i < |w.log| {
        EffectsExplained(c, Init(run), i);
        WasReadGrows(c, run, After(c, run).log[i].flight);
      } else {
        assert s.Finish?;
        FlightsWereRead(c, Init(run), s.f);
        WasReadGrows(c, run, w.flights[s.f]);
      }
    }
  }

  /** A ceiling below enforce means no effect on the host in any run. */
  lemma LowCeilingIsHarmless(c: Config, run: seq<Step>)
    requires Valid(c, run) && c.ceiling < ENFORCE
    ensures After(c, run).log == []
  {
    if After(c, run).log != [] {
      EffectsExplained(c, run, 0);
      var fl := After(c, run).log[0].flight;
      var n: nat :| ReadAt(c, run, n, fl);
      PostureWithinCeiling(c, run[..n]);
      assert false;
    }
  }

  /** No alert ever acts on an allowlisted executable. */
  lemma AllowlistHonoured(c: Config, run: seq<Step>, i: nat)
    requires Valid(c, run) && i < |After(c, run).log| && After(c, run).log[i].flight.request.ForAlert?
    ensures After(c, run).log[i].flight.request.alert.event.process.executable !in c.allow
    ensures PolicyAction(DEFAULT_POLICY, After(c, run).log[i].flight.request.alert) != AlertOnly
  {
    EffectsExplained(c, run, i);
  }

  // ----- what is done for what -----

  /** How grave an alert is: its own risk score if it has one, or else its severity's. */
  function Gravity(a: Alert): (n: int) {
    if a.riskScore > 0 then a.riskScore
    else if a.severity == 4 then 90
    else if a.severity == 3 then 75
    else if a.severity == 2 then 50
    else 0
  }

  /** The effect is on the alert's own process. */
  predicate OnProcess(a: Alert, e: Effect) {
    (e.Killed? || e.Frozen?) && e.pid == a.event.process.pid && e.comm == a.event.process.name
  }

  /** The effect is part of blocking this address. */
  predicate BlocksAddress(ip: string, e: Effect) {
    e.TableAdded? || e.ChainAdded? || (e.DropAdded? && e.ip == ip)
  }

  /** The graduated ladder: from 90 the process is killed; from 75 its destination is blocked, or
      the process is frozen if it has none; from 50 it is frozen; below, nothing is done. */
  predicate Warranted(a: Alert, e: Effect) {
    var n, ip := Gravity(a), a.event.network.dstIP;
    if n >= 90 then e.Killed? && OnProcess(a, e)
    else if n >= 75 then (if ip != "" then BlocksAddress(ip, e) else e.Frozen? && OnProcess(a, e))
    else n >= 50 && e.Frozen? && OnProcess(a, e)
  }

  /** What a rule asked for by name. */
  predicate CarriesOut(action: Action, a: Alert, e: Effect) {
    match action
    case Kill => e.Killed? && OnProcess(a, e)
    case Throttle => e.Frozen? && OnProcess(a, e)
    case NetworkBlock => a.event.network.dstIP != "" && BlocksAddress(a.event.network.dstIP, e)
    case Quarantine => a.event.network.dstIP != "" && BlocksAddress(a.event.network.dstIP, e)
    case AlertOnly => false
    case Named(_) => false
  }

  predicate AsAsked(r: Request, e: Effect) {
    match r
    case ForAlert(a) => if a.requested.Some? then CarriesOut(a.requested.value, a, e) else Warranted(a, e)
    case ForKill(pid) => e.Killed? && e.pid == pid
    case ForBlock(ip) => BlocksAddress(ip, e)
  }

  lemma BlockBlocks(b: Blocker, ip: string, valid: ValidIP, o: Outcome, e: Effect)
    requires e in BlockEffects(b, ip, valid, o)
    ensures BlocksAddress(ip, e)
  {
  }

  lemma ExecutedAsAsked(b: Blocker, a: Alert, valid: ValidIP, o: Outcome, e: Effect)
    requires e in RequestEffects(b, ForAlert(a), valid, o)
    ensures AsAsked(ForAlert(a), e)
  {
    if e in BlockEffects(b, a.event.network.dstIP, valid, o) { BlockBlocks(b, a.event.network.dstIP, valid, o, e); }
  }

  lemma RequestAsAsked(b: Blocker, r: Request, valid: ValidIP, o: Outcome, e: Effect)
    requires e in RequestEffects(b, r, valid, o)
    ensures AsAsked(r, e)
  {
    match r
    case ForAlert(a) => ExecutedAsAsked(b, a, valid, o, e);
    case ForKill(_) =>
    case ForBlock(ip) => BlockBlocks(b, ip, valid, o, e);
  }

  /** In every run, whatever happened on the host is what the ladder says for its alert, what the
      alert's rule asked for, or what its command asked for. */
  lemma {:induction false} EffectsAsAsked(c: Config, run: seq<Step>, i: nat)
    requires Valid(c, run) && i < |After(c, run).log|
    ensures AsAsked(After(c, run).log[i].flight.request, After(c, run).log[i].effect)
  {
    if run != [] {
      var w, s := After(c, Init(run)), run[|run| - 1];
      if i < |w.log| {
        EffectsAsAsked(c, Init(run), i);
      } else {
        assert s.Finish?;
        var fl, x := w.flights[s.f], After(c, run).log[i];
        var es := RequestEffects(w.blocker, fl.request, c.valid, s.outcome);
        assert x == Entry(es[i - |w.log|], fl);
        RequestAsAsked(w.blocker, fl.request, c.valid, s.outcome, x.effect);
      }
    }
  }

  /** The alert asks for this effect on its process. */
  predicate KillsProcess(a: Alert) {
    if a.requested.Some? then a.requested.value == Kill else Gravity(a) >= 90
  }

  predicate FreezesProcess(a: Alert) {
    if a.requested.Some? then a.requested.value == Throttle
    else 50 <= Gravity(a) < 75 || (75 <= Gravity(a) < 90 && a.event.network.dstIP == "")
  }

  predicate BlocksDestination(a: Alert) {
    a.event.network.dstIP != "" &&
    if a.requested.Some? then a.requested.value in {NetworkBlock, Quarantine} else 75 <= Gravity(a) < 90
  }

  /** The effects of one alert that acts. */
  ghost predicate Done(b: Blocker, a: Alert, valid: ValidIP, o: Outcome, es: seq<Effect>) {
    if KillsProcess(a) then es == [Killed(a.event.process.pid, a.event.process.name, o.kill)]
    else if FreezesProcess(a) then es == [Frozen(a.event.process.pid, a.event.process.name, o.freeze)]
    else if BlocksDestination(a) then es == BlockEffects(b, a.event.network.dstIP, valid, o)
    else es == []
  }

  function Happenings(log: seq<Entry>): (es: seq<Effect>)
    ensures |es| == |log| && forall i :: 0 <= i < |log| ==> es[i] == log[i].effect
  {
    seq(|log|, i requires 0 <= i < |log| => log[i].effect)
  }

  /** And conversely: an alert that read enforce, from an executable not allowlisted, has all its
      effects when it finishes. */
  lemma AlertIsCarriedOut(c: Config, w: World, f: nat, o: Outcome)
    requires f in w.flights && w.flights[f].request.ForAlert? && w.flights[f].read == ENFORCE
    requires w.flights[f].request.alert.event.process.executable !in c.allow
    ensures
      var a, log := w.flights[f].request.alert, Apply(c, w, Finish(f, o)).log;
      && w.log <= log && (forall i :: |w.log| <= i < |log| ==> log[i].flight == w.flights[f])
      && Done(w.blocker, a, c.valid, o, Happenings(log[|w.log|..]))
  {
    var a, log := w.flights[f].request.alert, Apply(c, w, Finish(f, o)).log;
    var es := RequestEffects(w.blocker, ForAlert(a), c.valid, o);
    assert Done(w.blocker, a, c.valid, o, es);
    if Acts(ENFORCE, ForAlert(a), c.allow) {
      assert log == w.log + Entries(es, w.flights[f]);
      assert Happenings(log[|w.log|..]) == es;
    } else {
      assert log == w.log && es == [];
    }
  }

  // ----- the posture is the last one asked for -----

  function Rank(word: string): (m: Mode) {
    if word == "enforce" then 2 else if word == "dry-run" then 1 else 0
  }

  function AtMost(m: Mode, ceiling: Mode): (r: Mode) {
    if m <= ceiling then m else ceiling
  }

  /** The first policy file of a bundle. */
  ghost predicate FirstPolicy(files: seq<RuleFile>, i: nat) {
    i < |files| && files[i].base == "argus-policy.yml" && forall j :: 0 <= j < i ==> files[j].base != "argus-policy.yml"
  }

  /** A remote command, or the policy file of a pushed bundle, names this posture. */
  ghost predicate Says(s: Step, word: string) {
    || (s.Remote? && s.command.kind == "SET_RESPONSE_MODE" && s.command.argument == word)
    || (s.Pushed? && word != "" && exists i: nat :: FirstPolicy(s.files, i) && s.files[i].parsed == Some(word))
  }

  lemma {:induction false} PolicySays(files: seq<RuleFile>, word: string)
    requires Says(Pushed(files), word)
    ensures PolicyMode(files) == Some(Rank(word))
    decreases |files|
  {
    var i: nat :| FirstPolicy(files, i) && files[i].parsed == Some(word);
    if i > 0 {
      assert FirstPolicy(files[1..], i - 1) && files[1..][i - 1] == files[i];
      PolicySays(files[1..], word);
    }
  }

  lemma SaidLater(files: seq<RuleFile>, word: string)
    requires files != [] && files[0].base != POLICY_FILE && Says(Pushed(files[1..]), word)
    ensures Says(Pushed(files), word)
  {
    var i: nat :| FirstPolicy(files[1..], i) && files[1..][i].parsed == Some(word);
    assert FirstPolicy(files, i + 1);
  }

  lemma SaidFirst(files: seq<RuleFile>)
    requires files != [] && files[0].base == POLICY_FILE && files[0].parsed.Some? && files[0].parsed.value != ""
    ensures Says(Pushed(files), files[0].parsed.value)
  {
    assert FirstPolicy(files, 0);
  }

  lemma {:induction false} PolicySilent(files: seq<RuleFile>)
    requires forall word :: !Says(Pushed(files), word)
    ensures PolicyMode(files) == None
    decreases |files|
  {
    if files != [] && files[0].base != POLICY_FILE {
      forall word ensures !Says(Pushed(files[1..]), word) {
        if Says(Pushed(files[1..]), word) { SaidLater(files, word); }
      }
      PolicySilent(files[1..]);
    } else if files != [] && files[0].parsed.Some? && files[0].parsed.value != "" {
      SaidFirst(files);
    }
  }

  lemma PostureStep(c: Config, w: World, s: Step)
    requires Enabled(w, s)
    ensures forall word :: Says(s, word) ==> Apply(c, w, s).mode == AtMost(Rank(word), c.ceiling)
    ensures (forall word :: !Says(s, word)) ==> Apply(c, w, s).mode == w.mode
  {
    if s.Pushed? {
      forall word | Says(s, word) ensures PolicyMode(s.files) == Some(Rank(word)) { PolicySays(s.files, word); }
      if forall word :: !Says(s, word) {
        assert forall word :: Says(s, word) == Says(Pushed(s.files), word);
        PolicySilent(s.files);
      }
    } else if s.Remote? && s.command.kind == "SET_RESPONSE_MODE" {
      assert Says(s, s.command.argument);
    }
  }

  /** The n-th step was the last to name a posture, and named this one. */
  ghost predicate LastSaid(run: seq<Step>, n: nat, word: string) {
    n < |run| && Says(run[n], word) && forall m, other :: n < m < |run| ==> !Says(run[m], other)
  }

  ghost predicate NeverSaid(run: seq<Step>) {
    forall m, other :: 0 <= m < |run| ==> !Says(run[m], other)
  }

  /** In every run the posture is the last one named, or the configured one if none was, held
      down to the ceiling. */
  lemma {:induction false} PostureIsLastSaid(c: Config, run: seq<Step>)
    requires Valid(c, run)
    ensures forall n: nat, word :: LastSaid(run, n, word) ==> After(c, run).mode == AtMost(Rank(word), c.ceiling)
    ensures NeverSaid(run) ==> After(c, run).mode == AtMost(c.start, c.ceiling)
  {
    if run != [] {
      var init, k := Init(run), |run| - 1;
      PostureIsLastSaid(c, init);
      PostureStep(c, After(c, init), run[k]);
      forall n: nat, word | LastSaid(run, n, word)
        ensures After(c, run).mode == AtMost(Rank(word), c.ceiling)
      {
        if n < k {
          assert LastSaid(init, n, word);
          assert forall other :: !Says(run[k], other);
        }
      }
    }
  }

  // ----- the blocker -----

  ghost predicate Happened(log: seq<Entry>, n: nat, e: Effect) {
    exists i :: 0 <= i < n <= |log| && log[i].effect == e
  }

  /** Table and chain had been created before position n. */
  ghost predicate ChainBefore(log: seq<Entry>, n: nat) {
    Happened(log, n, TableAdded(true)) && Happened(log, n, ChainAdded(true))
  }

  ghost predicate BlockerTracked(w: World) {
    && (w.blocker.chainUp ==> ChainBefore(w.log, |w.log|))
    && (forall ip :: ip in w.blocker.blocked <==> Happened(w.log, |w.log|, DropAdded(ip, true)))
    && (forall i :: 0 <= i < |w.log| && w.log[i].effect.DropAdded? ==> ChainBefore(w.log, i))
    && (forall i, j :: 0 <= i < j < |w.log| ==> !SameDrop(w.log[i].effect, w.log[j].effect))
  }

  predicate SameDrop(a: Effect, b: Effect) {
    a.DropAdded? && b.DropAdded? && a.ok && b.ok && a.ip == b.ip
  }

  lemma HappenedGrows(log: seq<Entry>, more: seq<Entry>, n: nat, e: Effect)
    requires n <= |log|
    ensures Happened(log + more, n, e) == Happened(log, n, e)
  {
    assert forall i :: 0 <= i < |log| ==> (log + more)[i] == log[i];
  }

  lemma HappenedLater(log: seq<Entry>, n: nat, m: nat, e: Effect)
    requires Happened(log, n, e) && n <= m <= |log|
    ensures Happened(log, m, e)
  {
    var i :| 0 <= i < n <= |log| && log[i].effect == e;
  }

  /** One more effect, kept in step by the blocker. */
  lemma OneMore(w: World, x: Entry, b: Blocker)
    requires BlockerTracked(w)
    requires x.effect.DropAdded? ==> w.blocker.chainUp
    requires x.effect.DropAdded? && x.effect.ok ==> x.effect.ip !in w.blocker.blocked
    requires b.blocked == w.blocker.blocked + (if x.effect.DropAdded? && x.effect.ok then {x.effect.ip} else {})
    requires b.chainUp ==>
             w.blocker.chainUp || (x.effect == ChainAdded(true) && Happened(w.log, |w.log|, TableAdded(true)))
    ensures BlockerTracked(w.(log := w.log + [x], blocker := b))
  {
    var log := w.log + [x];
    var n := |w.log|;
    assert log[n] == x && forall i :: 0 <= i < n ==> log[i] == w.log[i];
    forall e ensures Happened(log, n + 1, e) <==> Happened(w.log, n, e) || x.effect == e {
      HappenedGrows(w.log, [x], n, e);
      if Happened(log, n, e) { HappenedLater(log, n, n + 1, e); }
      if x.effect == e { assert log[n].effect == e; }
    }
    forall i | 0 <= i <= n && log[i].effect.DropAdded? ensures ChainBefore(log, i) {
      HappenedGrows(w.log, [x], i, TableAdded(true));
      HappenedGrows(w.log, [x], i, ChainAdded(true));
    }
    forall i, j | 0 <= i < j < |log| ensures !SameDrop(log[i].effect, log[j].effect) {
      if w.log[i].effect.DropAdded? { assert Happened(w.log, n, w.log[i].effect); }
    }
  }

  /** What one block adds to the log keeps the blocker in step with it. */
  lemma BlockTracked(w: World, ip: string, valid: ValidIP, o: Outcome, fl: Flight)
    requires BlockerTracked(w)
    ensures BlockerTracked(w.(blocker := Blocked(w.blocker, ip, valid, o),
                              log := w.log + Entries(BlockEffects(w.blocker, ip, valid, o), fl)))
  {
    if valid(ip) && ip !in w.blocker.blocked {
      var ready := ChainTracked(w, o, fl);
      if ChainReady(w.blocker, o) {
        var x := Entry(DropAdded(ip, o.drop), fl);
        OneMore(ready, x, Blocked(w.blocker, ip, valid, o));
        assert ready.log + [x] == w.log + Entries(BlockEffects(w.blocker, ip, valid, o), fl);
      } else {
        assert BlockEffects(w.blocker, ip, valid, o) == ChainEffects(w.blocker, o);
      }
    } else {
      assert w.log + Entries([], fl) == w.log;
    }
  }

  lemma ChainTracked(w: World, o: Outcome, fl: Flight) returns (w': World)
    requires BlockerTracked(w)
    ensures w' == w.(blocker := w.blocker.(chainUp := ChainReady(w.blocker, o)),
                     log := w.log + Entries(ChainEffects(w.blocker, o), fl))
    ensures BlockerTracked(w')
  {
    w' := w.(blocker := w.blocker.(chainUp := ChainReady(w.blocker, o)),
             log := w.log + Entries(ChainEffects(w.blocker, o), fl));
    if w.blocker.chainUp {
      assert w.log + Entries([], fl) == w.log;
    } else {
      var x, y := Entry(TableAdded(o.table), fl), Entry(ChainAdded(o.chain), fl);
      OneMore(w, x, w.blocker);
      var w1 := w.(log := w.log + [x]);
      if o.table {
        assert w1.log[|w.log|].effect == TableAdded(true);
        OneMore(w1, y, w'.blocker);
        assert w1.log + [y] == w'.log;
      } else {
        assert w1.log == w'.log;
      }
    }
  }

  lemma RequestTracked(c: Config, w: World, r: Request, o: Outcome, fl: Flight)
    requires BlockerTracked(w)
    ensures BlockerTracked(w.(blocker := RequestBlocker(w.blocker, r, c.valid, o),
                              log := w.log + Entries(RequestEffects(w.blocker, r, c.valid, o), fl)))
  {
    var es := RequestEffects(w.blocker, r, c.valid, o);
    var ip := if r.ForAlert? then r.alert.event.network.dstIP else if r.ForBlock? then r.ip else "";
    if es == BlockEffects(w.blocker, ip, c.valid, o) &&
      RequestBlocker(w.blocker, r, c.valid, o) == Blocked(w.blocker, ip, c.valid, o) {
      BlockTracked(w, ip, c.valid, o, fl);
    } else if es == [] {
      assert w.log + Entries(es, fl) == w.log;
    } else {
      OneMore(w, Entry(es[0], fl), w.blocker);
      assert Entries(es, fl) == [Entry(es[0], fl)];
    }
  }

  /** In every run each address gets at most one successful drop rule, and every drop rule
      comes after the table and the chain were created. */
  lemma {:induction false} DropsOnceAndAfterChain(c: Config, run: seq<Step>)
    requires Valid(c, run)
    ensures BlockerTracked(After(c, run))
  {
    if run != [] {
      DropsOnceAndAfterChain(c, Init(run));
      var w, s := After(c, Init(run)), run[|run| - 1];
      if s.Finish? {
        var fl := w.flights[s.f];
        RequestTracked(c, w, fl.request, s.outcome, fl);
      }
    }
  }
}
