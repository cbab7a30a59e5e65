/** The per-process correlator: risk accumulated per process while its alerting events keep
    coming inside the window, one incident per such session. */
module ProcessCorrelator {
  import opened Text
  import opened Model
  import opened Sorting

  const MAX_TRACKED_PROCESSES := 16384

  datatype Config = Config(window: int, threshold: int)

  /** severity: 1 low, 2 medium, 3 high, 4 critical. */
  datatype Alert = Alert(ruleID: string, technique: string, severity: int, riskScore: int)

  datatype ProcState = ProcState(
    score: int, techniques: set<string>, ruleIDs: seq<string>, first: int, last: int, hasOpened: bool)

  datatype Incident = Incident(
    host: string, processKey: string, riskScore: int, techniques: seq<string>, ruleIDs: seq<string>,
    firstSeen: int, lastSeen: int)

  type States = map<string, ProcState>

  function SeverityScore(severity: int): (n: nat) {
    match severity
    case 1 => 10
    case 2 => 25
    case 3 => 50
    case 4 => 80
    case _ => 0
  }

  function ScoreOf(a: Alert): (n: nat) {
    if a.riskScore > 0 then a.riskScore else SeverityScore(a.severity)
  }

  // ----- folding alerts -----

  function TotalScore(alerts: seq<Alert>): (n: nat) {
    if alerts == [] then 0 else TotalScore(alerts[..|alerts| - 1]) + ScoreOf(alerts[|alerts| - 1])
  }

  function RuleIDs(alerts: seq<Alert>): (ids: seq<string>)
    ensures |ids| == |alerts| && forall i :: 0 <= i < |alerts| ==> ids[i] == alerts[i].ruleID
  {
    seq(|alerts|, i requires 0 <= i < |alerts| => alerts[i].ruleID)
  }

  function Techniques(alerts: seq<Alert>): (ts: set<string>) {
    set i | 0 <= i < |alerts| :: alerts[i].technique
  }

  /** The values in order of first occurrence. */
  function Dedupe(values: seq<string>): (r: seq<string>) {
    if values == [] then []
    else
      var init, last := values[..|values| - 1], values[|values| - 1];
      if last in init then Dedupe(init) else Dedupe(init) + [last]
  }

  lemma {:induction false} DedupeElements(values: seq<string>)
    ensures forall v :: v in Dedupe(values) <==> v in values
    ensures forall i, j :: 0 <= i < j < |Dedupe(values)| ==> Dedupe(values)[i] != Dedupe(values)[j]
  {
    if values != [] {
      var init, last := values[..|values| - 1], values[|values| - 1];
      DedupeElements(init);
      assert values == init + [last];
      assert forall v :: v in values <==> v in init || v == last;
    }
  }

  /** Of two values kept, the one that occurs first stays first. */
  lemma {:induction false} DedupeKeepsOrder(values: seq<string>, i: nat, j: nat)
    requires i < j < |Dedupe(values)|
    ensures exists k :: 0 <= k < |values| && values[k] == Dedupe(values)[i] && Dedupe(values)[j] !in values[..k]
  {
    var init, last := values[..|values| - 1], values[|values| - 1];
    DedupeElements(init);
    if last !in init && j == |Dedupe(init)| {
      assert Dedupe(values)[i] == Dedupe(init)[i];
      assert Dedupe(init)[i] in Dedupe(init);
      var k :| 0 <= k < |init| && init[k] == Dedupe(init)[i];
      assert values[k] == init[k] && values[..k] == init[..k];
    } else {
      assert Dedupe(values)[i] == Dedupe(init)[i] && Dedupe(values)[j] == Dedupe(init)[j];
      DedupeKeepsOrder(init, i, j);
      var k :| 0 <= k < |init| && init[k] == Dedupe(init)[i] && Dedupe(init)[j] !in init[..k];
      assert values[k] == init[k] && values[..k] == init[..k];
    }
  }

  method DedupeStrings(values: seq<string>) returns (out: seq<string>)
    ensures out == Dedupe(values)
  {
    var seen: set<string> := {};
    out := [];
    for i := 0 to |values|
      invariant seen == set k | 0 <= k < i :: values[k]
      invariant out == Dedupe(values[..i])
    {
      assert values[..i + 1][..i] == values[..i];
      assert values[i] in seen <==> values[i] in values[..i];
      if values[i] !in seen {
        seen := seen + {values[i]};
        out := out + [values[i]];
      }
    }
    assert values[..|values|] == values;
  }

  // ----- the steps, as functions on values -----

  predicate Stale(c: Config, s: ProcState, now: int) {
    now - s.last > c.window
  }

  predicate StartsSession(c: Config, states: States, key: string, now: int) {
    key !in states || Stale(c, states[key], now)
  }

  function Sweep(c: Config, states: States, now: int): (r: States) {
    if |states| <= MAX_TRACKED_PROCESSES then states
    else map k | k in states && !Stale(c, states[k], now) :: states[k]
  }

  function Fresh(now: int): ProcState {
    ProcState(0, {}, [], now, now, false)
  }

  function StateFor(c: Config, states: States, key: string, now: int): (s: ProcState) {
    if StartsSession(c, states, key, now) then Fresh(now) else states[key]
  }

  /** The map after stateFor: a new session is added, and then the map is swept. */
  function Prepared(c: Config, states: States, key: string, now: int): (r: States) {
    if StartsSession(c, states, key, now) then Sweep(c, states[key := Fresh(now)], now) else states
  }

  function Folded(c: Config, s: ProcState, alerts: seq<Alert>, now: int): (r: ProcState) {
    var score := s.score + TotalScore(alerts);
    ProcState(score, s.techniques + Techniques(alerts), s.ruleIDs + RuleIDs(alerts), s.first, now,
              s.hasOpened || score >= c.threshold)
  }

  /** The state is updated through a pointer: the map sees it if it still holds the key. */
  function Next(c: Config, states: States, key: string, alerts: seq<Alert>, now: int): (r: States) {
    if alerts == [] then states
    else
      var base := Prepared(c, states, key, now);
      if key in base then base[key := Folded(c, StateFor(c, states, key, now), alerts, now)] else base
  }

  ghost function IncidentFor(e: Event, s: ProcState): (i: Incident) {
    Incident(e.host, ProcessKey(e), s.score, Sorted(s.techniques - {""}), Dedupe(s.ruleIDs), s.first, s.last)
  }

  ghost function Output(c: Config, states: States, e: Event, alerts: seq<Alert>, now: int): (i: Option<Incident>) {
    var s := StateFor(c, states, ProcessKey(e), now);
    var s' := Folded(c, s, alerts, now);
    if alerts == [] || s.hasOpened || s'.score < c.threshold then None else Some(IncidentFor(e, s'))
  }

  // ----- the object (internal/detect/correlate.go) -----

  class Correlator {
    const config: Config
    var states: States

    constructor (config: Config)
      ensures this.config == config && states == map[]
    {
      this.config, states := config, map[];
    }

    method SweepStates(now: int)
      modifies this
      ensures states == Sweep(config, old(states), now)
    {
      if |states| <= MAX_TRACKED_PROCESSES { return; }
      var left := states.Keys;
      while left != {}
        invariant left <= old(states).Keys
        invariant states ==
                  map k | k in old(states) && (k in left || !Stale(config, old(states)[k], now)) :: old(states)[k]
        decreases |left|
      {
        var k :| k in left;
        if Stale(config, states[k], now) { states := states - {k}; }
        left := left - {k};
      }
    }

    method FindState(key: string, now: int) returns (s: ProcState)
      modifies this
      ensures states == Prepared(config, old(states), key, now)
      ensures s == StateFor(config, old(states), key, now)
    {
      if StartsSession(config, states, key, now) {
        s := Fresh(now);
        states := states[key := s];
        SweepStates(now);
      } else {
        s := states[key];
      }
    }

    method FoldAlerts(s: ProcState, alerts: seq<Alert>, now: int) returns (r: ProcState)
      ensures r == Folded(config, s, alerts, now)
    {
      var score, techniques, ruleIDs := s.score, s.techniques, s.ruleIDs;
      for i := 0 to |alerts|
        invariant score == s.score + TotalScore(alerts[..i])
        invariant techniques == s.techniques + Techniques(alerts[..i])
        invariant ruleIDs == s.ruleIDs + RuleIDs(alerts[..i])
      {
        assert alerts[..i + 1][..i] == alerts[..i];
        TechniquesSnoc(alerts[..i], alerts[i]);
        assert alerts[..i] + [alerts[i]] == alerts[..i + 1];
        score := score + ScoreOf(alerts[i]);
        techniques := techniques + {alerts[i].technique};
        ruleIDs := ruleIDs + [alerts[i].ruleID];
      }
      assert alerts[..|alerts|] == alerts;
      r := ProcState(score, techniques, ruleIDs, s.first, now, s.hasOpened || score >= config.threshold);
    }

    /** The new map and the incident are those of the step functions. */
    method Observe(e: Event, alerts: seq<Alert>, now: int) returns (incident: Option<Incident>)
      modifies this
      ensures states == Next(config, old(states), ProcessKey(e), alerts, now)
      ensures incident == Output(config, old(states), e, alerts, now)
    {
      if alerts == [] { return None; }
      var key := ProcessKey(e);
      var s := FindState(key, now);
      var s' := FoldAlerts(s, alerts, now);
      if key in states { states := states[key := s']; }
      if s.hasOpened || s'.score < config.threshold { return None; }
      var techniques := SortKeys(s'.techniques - {""});
      var ruleIDs := DedupeStrings(s'.ruleIDs);
      incident := Some(Incident(e.host, key, s'.score, techniques, ruleIDs, s'.first, s'.last));
    }
  }

  lemma TechniquesSnoc(alerts: seq<Alert>, a: Alert)
    ensures Techniques(alerts + [a]) == Techniques(alerts) + {a.technique}
  {
    var r := alerts + [a];
    forall t | t in Techniques(alerts) ensures t in Techniques(r) {
      var i :| 0 <= i < |alerts| && alerts[i].technique == t;
      assert r[i].technique == t;
    }
    assert r[|alerts|].technique == a.technique;
    forall t | t in Techniques(r) ensures t in Techniques(alerts) + {a.technique} {
      var i :| 0 <= i < |r| && r[i].technique == t;
      assert i < |alerts| ==> alerts[i].technique == t;
    }
  }

  /** Two processes share a key only if they have the same pid and start time. */
  lemma ProcessKeyInjective(d: Event, e: Event)
    requires ProcessKey(d) == ProcessKey(e)
    ensures d.process.pid == e.process.pid && d.process.startTimeNs == e.process.startTimeNs
  {
    var p, q := FormatNat(d.process.pid), FormatNat(e.process.pid);
    var a, b := FormatNat(d.process.startTimeNs), FormatNat(e.process.startTimeNs);
    assert p + (":" + a) == ProcessKey(d) == ProcessKey(e) == q + (":" + b);
    SplitUnique(p, a, q, b, ':');
    FormatNatInjective(d.process.pid, e.process.pid);
    FormatNatInjective(d.process.startTimeNs, e.process.startTimeNs);
  }
}
