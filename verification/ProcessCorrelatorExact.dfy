/** The per-process correlator opens an incident exactly when the running score of the key's
    current session first reaches the threshold; sweeping never shows. */
module ProcessCorrelatorExact {
  import opened Text
  import opened Model
  import opened Sorting
  import opened ProcessCorrelator

  // ----- the plain specification -----

  datatype Input = Input(event: Event, alerts: seq<Alert>, time: int)

  /** One alerting event of a process. */
  datatype Occurrence = Occurrence(alerts: seq<Alert>, time: int)

  predicate Concerns(i: Input, key: string) {
    i.alerts != [] && ProcessKey(i.event) == key
  }

  ghost function History(run: seq<Input>, key: string): (h: seq<Occurrence>) {
    if run == [] then []
    else
      var init, last := run[..|run| - 1], run[|run| - 1];
      History(init, key) + (if Concerns(last, key) then [Occurrence(last.alerts, last.time)] else [])
  }

  /** The last session of a history: no gap between consecutive events exceeds the window. */
  ghost function LastSession(window: int, h: seq<Occurrence>): (w: seq<Occurrence>)
    ensures w == [] <==> h == []
  {
    if h == [] then [] else Extend(window, LastSession(window, h[..|h| - 1]), h[|h| - 1])
  }

  ghost function Extend(window: int, w: seq<Occurrence>, x: Occurrence): (r: seq<Occurrence>)
    ensures r != [] && r[|r| - 1] == x
  {
    if w != [] && x.time - w[|w| - 1].time <= window then w + [x] else [x]
  }

  ghost function AlertsOf(w: seq<Occurrence>): (alerts: seq<Alert>) {
    if w == [] then [] else AlertsOf(w[..|w| - 1]) + w[|w| - 1].alerts
  }

  /** What an alert is worth: its rule's own risk score if it has one, or else its severity's. */
  function Points(a: Alert): (n: nat) {
    if a.riskScore > 0 then a.riskScore
    else if a.severity == 4 then 80
    else if a.severity == 3 then 50
    else if a.severity == 2 then 25
    else if a.severity == 1 then 10
    else 0
  }

  ghost function Sum(alerts: seq<Alert>): (n: nat) {
    if alerts == [] then 0 else Points(alerts[0]) + Sum(alerts[1..])
  }

  ghost function Score(w: seq<Occurrence>): (n: nat) {
    Sum(AlertsOf(w))
  }

  /** The techniques named by the alerts. */
  ghost function Named(alerts: seq<Alert>): (ts: set<string>) {
    set a | a in alerts && a.technique != "" :: a.technique
  }

  /** The last event brings the session's score to the threshold for the first time. */
  ghost predicate Opens(c: Config, w: seq<Occurrence>)
    requires w != []
  {
    Score(w) >= c.threshold && (|w| == 1 || Score(w[..|w| - 1]) < c.threshold)
  }

  ghost function SpecIncident(e: Event, w: seq<Occurrence>): (i: Incident)
    requires w != []
  {
    var alerts := AlertsOf(w);
    Incident(e.host, ProcessKey(e), Score(w), Sorted(Named(alerts)), Dedupe(RuleIDs(alerts)),
             w[0].time, w[|w| - 1].time)
  }

  ghost function SpecOutput(c: Config, run: seq<Input>, i: Input): (r: Option<Incident>) {
    if i.alerts == [] then None
    else
      var w := Extend(c.window, LastSession(c.window, History(run, ProcessKey(i.event))), Occurrence(i.alerts, i.time));
      if Opens(c, w) then Some(SpecIncident(i.event, w)) else None
  }

  // ----- what the map holds of a key -----

  ghost function StateOf(c: Config, w: seq<Occurrence>): (s: ProcState)
    requires w != []
  {
    var alerts := AlertsOf(w);
    ProcState(Score(w), Techniques(alerts), RuleIDs(alerts), w[0].time, w[|w| - 1].time, Score(w) >= c.threshold)
  }

  ghost predicate KeyHeld(c: Config, states: States, key: string, w: seq<Occurrence>, now: int) {
    if w == [] then key !in states
    else if now < w[|w| - 1].time then false
    else if now - w[|w| - 1].time <= c.window then key in states && states[key] == StateOf(c, w)
    else key in states ==> Stale(c, states[key], now)
  }

  lemma TimePasses(c: Config, states: States, key: string, w: seq<Occurrence>, now: int, later: int)
    requires KeyHeld(c, states, key, w, now) && now <= later
    ensures KeyHeld(c, states, key, w, later)
  {
  }

  lemma {:induction false} SumConcat(a: seq<Alert>, b: seq<Alert>)
    ensures Sum(a + b) == Sum(a) + Sum(b)
    decreases |a|
  {
    if a == [] {
      assert a + b == b;
    } else {
      assert (a + b)[1..] == a[1..] + b;
      SumConcat(a[1..], b);
    }
  }

  /** The running total is the sum of the points. */
  lemma {:induction false} TotalIsSum(alerts: seq<Alert>)
    ensures TotalScore(alerts) == Sum(alerts)
    decreases |alerts|
  {
    if alerts != [] {
      var init, last := alerts[..|alerts| - 1], alerts[|alerts| - 1];
      TotalIsSum(init);
      SumConcat(init, [last]);
      InitLast(alerts);
      assert Sum([last]) == Points(last) == ScoreOf(last);
    }
  }

  lemma TechniquesAreNamed(alerts: seq<Alert>)
    ensures Techniques(alerts) - {""} == Named(alerts)
  {
    forall t ensures t in Techniques(alerts) - {""} <==> t in Named(alerts) {
      if t in Techniques(alerts) - {""} {
        var i :| 0 <= i < |alerts| && alerts[i].technique == t;
        assert alerts[i] in alerts;
      }
    }
  }

  lemma {:induction false} TechniquesConcat(a: seq<Alert>, b: seq<Alert>)
    ensures Techniques(a + b) == Techniques(a) + Techniques(b)
    decreases |b|
  {
    if b == [] {
      assert a + b == a;
    } else {
      var init, last := b[..|b| - 1], b[|b| - 1];
      assert a + b == (a + init) + [last] && b == init + [last];
      TechniquesConcat(a, init);
      TechniquesSnoc(a + init, last);
      TechniquesSnoc(init, last);
    }
  }

  lemma AlertsSnoc(w: seq<Occurrence>, x: Occurrence)
    ensures AlertsOf(w + [x]) == AlertsOf(w) + x.alerts
    ensures Score(w + [x]) == Score(w) + Sum(x.alerts)
  {
    assert (w + [x])[..|w|] == w;
    SumConcat(AlertsOf(w), x.alerts);
  }

  lemma AlertsOne(x: Occurrence)
    ensures AlertsOf([x]) == x.alerts
  {
    AlertsSnoc([], x);
    assert [] + [x] == [x] && AlertsOf([]) + x.alerts == x.alerts;
  }

  lemma FoldContinues(c: Config, w: seq<Occurrence>, x: Occurrence)
    requires w != []
    ensures Folded(c, StateOf(c, w), x.alerts, x.time) == StateOf(c, w + [x])
  {
    AlertsSnoc(w, x);
    TotalIsSum(x.alerts);
    TechniquesConcat(AlertsOf(w), x.alerts);
    assert RuleIDs(AlertsOf(w) + x.alerts) == RuleIDs(AlertsOf(w)) + RuleIDs(x.alerts);
  }

  lemma FoldStarts(c: Config, x: Occurrence)
    ensures Folded(c, Fresh(x.time), x.alerts, x.time) == StateOf(c, [x])
  {
    AlertsOne(x);
    TotalIsSum(x.alerts);
  }

  /** One alerting event: the state becomes the extended session's, and it had not opened
      exactly if the extended session opens only now. */
  lemma FoldMeans(c: Config, states: States, key: string, w: seq<Occurrence>, x: Occurrence)
    requires KeyHeld(c, states, key, w, x.time)
    ensures
      var s := StateFor(c, states, key, x.time);
      var w' := Extend(c.window, w, x);
      && Folded(c, s, x.alerts, x.time) == StateOf(c, w')
      && (!s.hasOpened && Score(w') >= c.threshold <==> Opens(c, w'))
  {
    if w != [] && x.time - w[|w| - 1].time <= c.window {
      FoldContinues(c, w, x);
      AlertsSnoc(w, x);
      assert (w + [x])[..|w|] == w;
    } else {
      FoldStarts(c, x);
    }
  }

  // ----- the whole map over a run -----

  ghost predicate Held(c: Config, states: States, run: seq<Input>, now: int) {
    forall k :: KeyHeld(c, states, k, LastSession(c.window, History(run, k)), now)
  }

  ghost predicate InTimeOrder(run: seq<Input>) {
    forall i, j :: 0 <= i <= j < |run| ==> run[i].time <= run[j].time
  }

  function After(c: Config, run: seq<Input>): (s: States) {
    if run == [] then map[]
    else
      var last := run[|run| - 1];
      Next(c, After(c, run[..|run| - 1]), ProcessKey(last.event), last.alerts, last.time)
  }

  lemma SessionSnoc(c: Config, run: seq<Input>, i: Input, key: string)
    ensures
      var w := LastSession(c.window, History(run, key));
      LastSession(c.window, History(run + [i], key)) ==
      if Concerns(i, key) then Extend(c.window, w, Occurrence(i.alerts, i.time)) else w
  {
    assert (run + [i])[..|run|] == run;
    var h, x := History(run, key), Occurrence(i.alerts, i.time);
    assert (h + [x])[..|h|] == h && h + [] == h;
  }

  /** Adding a session and sweeping leaves every other key held. */
  lemma OthersHeld(c: Config, states: States, key: string, k: string, w: seq<Occurrence>, now: int)
    requires k != key && KeyHeld(c, states, k, w, now)
    ensures KeyHeld(c, Prepared(c, states, key, now), k, w, now)
  {
  }

  /** The key of the event itself: still held if the map kept it, stale if it did not. */
  lemma OwnKeyHeld(c: Config, states: States, key: string, w: seq<Occurrence>, x: Occurrence)
    requires KeyHeld(c, states, key, w, x.time) && x.alerts != []
    ensures KeyHeld(c, Next(c, states, key, x.alerts, x.time), key, Extend(c.window, w, x), x.time)
  {
    FoldMeans(c, states, key, w, x);
  }

  lemma StepHeld(c: Config, states: States, run: seq<Input>, i: Input)
    requires Held(c, states, run, i.time)
    ensures Held(c, Next(c, states, ProcessKey(i.event), i.alerts, i.time), run + [i], i.time)
  {
    var key := ProcessKey(i.event);
    var states' := Next(c, states, key, i.alerts, i.time);
    forall k ensures KeyHeld(c, states', k, LastSession(c.window, History(run + [i], k)), i.time) {
      SessionSnoc(c, run, i, k);
      var w := LastSession(c.window, History(run, k));
      if k != key {
        OthersHeld(c, states, key, k, w, i.time);
      } else if i.alerts != [] {
        OwnKeyHeld(c, states, key, w, Occurrence(i.alerts, i.time));
      }
    }
  }

  lemma StepOutput(c: Config, states: States, run: seq<Input>, i: Input)
    requires Held(c, states, run, i.time)
    ensures Output(c, states, i.event, i.alerts, i.time) == SpecOutput(c, run, i)
  {
    var key := ProcessKey(i.event);
    var w := LastSession(c.window, History(run, key));
    assert KeyHeld(c, states, key, w, i.time);
    FoldMeans(c, states, key, w, Occurrence(i.alerts, i.time));
    TechniquesAreNamed(AlertsOf(Extend(c.window, w, Occurrence(i.alerts, i.time))));
  }

  lemma {:induction false} RunHeld(c: Config, run: seq<Input>, now: int)
    requires InTimeOrder(run) && (run != [] ==> run[|run| - 1].time <= now)
    ensures Held(c, After(c, run), run, now)
  {
    if run != [] {
      var init, last := run[..|run| - 1], run[|run| - 1];
      assert run == init + [last];
      RunHeld(c, init, last.time);
      StepHeld(c, After(c, init), init, last);
      forall k ensures KeyHeld(c, After(c, run), k, LastSession(c.window, History(run, k)), now) {
        TimePasses(c, After(c, run), k, LastSession(c.window, History(run, k)), last.time, now);
      }
    }
  }

  /** On every run with non-decreasing times, every event yields exactly the incident of the
      plain specification, whatever was swept. */
  lemma IncidentsExact(c: Config, run: seq<Input>, i: Input)
    requires InTimeOrder(run + [i])
    ensures Output(c, After(c, run), i.event, i.alerts, i.time) == SpecOutput(c, run, i)
  {
    assert InTimeOrder(run) by {
      assert forall j :: 0 <= j < |run| ==> (run + [i])[j] == run[j];
    }
    if run != [] { assert (run + [i])[|run| - 1].time <= (run + [i])[|run|].time; }
    RunHeld(c, run, i.time);
    StepOutput(c, After(c, run), run, i);
  }

  /** A session opens once: after it has opened, extending it never opens it again. */
  lemma OpensOnce(c: Config, w: seq<Occurrence>, x: Occurrence)
    requires w != [] && Score(w) >= c.threshold && x.time - w[|w| - 1].time <= c.window
    ensures !Opens(c, Extend(c.window, w, x)) && Score(Extend(c.window, w, x)) >= c.threshold
  {
    AlertsSnoc(w, x);
    assert (w + [x])[..|w|] == w;
  }
}
