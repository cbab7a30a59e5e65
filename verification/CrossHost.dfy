/** The fleet-wide correlator: per key, the hosts seen inside the current window. The index
    prunes hosts, sweeps keys and refuses keys at a cap; the specification cuts each key's
    history into windows and does none of that. */
module CrossHost {
  import opened Text
  import opened Sorting

  const MAX_TRACKED_KEYS := 100_000

  datatype Config = Config(window: int, minHosts: int)

  datatype HostWindow = HostWindow(hosts: map<string, int>, first: int, fired: bool)

  type Index = map<string, HostWindow>

  datatype Kind = LateralMovement | C2FanIn

  datatype Signal = Signal(kind: Kind, key: string, hosts: seq<string>, firstSeen: int, lastSeen: int)

  /** One alert as the correlator sees it, with its time resolved. */
  datatype Record = Record(technique: string, destination: string, host: string, time: int)

  // ----- the steps, as functions on values -----

  function Prune(hosts: map<string, int>, now: int, window: int): (r: map<string, int>) {
    map h | h in hosts && now - hosts[h] <= window :: hosts[h]
  }

  function Swept(w: HostWindow, now: int, window: int): (r: HostWindow) {
    w.(hosts := Prune(w.hosts, now, window))
  }

  function Sweep(index: Index, now: int, window: int): (r: Index) {
    map k | k in index && Prune(index[k].hosts, now, window) != map[] :: Swept(index[k], now, window)
  }

  predicate NeedsWindow(c: Config, index: Index, key: string, now: int) {
    key !in index || now - index[key].first > c.window
  }

  /** The index a key is tracked in: swept first when a new key finds it full. */
  function Reclaimed(c: Config, index: Index, key: string, now: int): (r: Index) {
    if key !in index && |index| >= MAX_TRACKED_KEYS then Sweep(index, now, c.window) else index
  }

  predicate Refused(c: Config, index: Index, key: string, now: int) {
    key !in index && |Reclaimed(c, index, key, now)| >= MAX_TRACKED_KEYS
  }

  function WindowFor(c: Config, index: Index, key: string, now: int): (w: HostWindow) {
    if NeedsWindow(c, index, key, now) then HostWindow(map[], now, false) else index[key]
  }

  function Sighted(c: Config, w: HostWindow, host: string, now: int): (r: HostWindow) {
    var hosts := Prune(w.hosts[host := now], now, c.window);
    HostWindow(hosts, w.first, w.fired || |hosts| >= c.minHosts)
  }

  function Tracked(c: Config, index: Index, key: string, host: string, now: int): (r: Index) {
    var base := Reclaimed(c, index, key, now);
    if Refused(c, index, key, now) then base
    else base[key := Sighted(c, WindowFor(c, index, key, now), host, now)]
  }

  ghost function Signalled(c: Config, index: Index, key: string, host: string, now: int, kind: Kind)
    : (s: Option<Signal>)
  {
    var w := WindowFor(c, index, key, now);
    var hosts := Prune(w.hosts[host := now], now, c.window);
    if Refused(c, index, key, now) || w.fired || |hosts| < c.minHosts then None
    else Some(Signal(kind, key, Sorted(hosts.Keys), w.first, now))
  }

  // ----- the object (server/correlate/crosshost.go) -----

  class CrossHost {
    const config: Config
    var byTechnique: Index
    var byDest: Index
    var lastSweep: Option<int>

    constructor (config: Config)
      ensures this.config == config && byTechnique == map[] && byDest == map[] && lastSweep == None
    {
      this.config, byTechnique, byDest, lastSweep := config, map[], map[], None;
    }

    method PruneExpired(hosts: map<string, int>, now: int) returns (r: map<string, int>)
      ensures r == Prune(hosts, now, config.window)
    {
      r := hosts;
      var left := hosts.Keys;
      while left != {}
        invariant left <= hosts.Keys
        invariant r == map h | h in hosts && (h in left || now - hosts[h] <= config.window) :: hosts[h]
        decreases |left|
      {
        var h :| h in left;
        if now - hosts[h] > config.window { r := r - {h}; }
        left := left - {h};
      }
    }

    method SweepIndex(index: Index, now: int) returns (r: Index)
      ensures r == Sweep(index, now, config.window)
    {
      r := map[];
      var left := index.Keys;
      while left != {}
        invariant left <= index.Keys
        invariant r == map k | k in index && k !in left && Prune(index[k].hosts, now, config.window) != map[] ::
                         Swept(index[k], now, config.window)
        decreases |left|
      {
        var k :| k in left;
        var hosts := PruneExpired(index[k].hosts, now);
        if hosts != map[] { r := r[k := index[k].(hosts := hosts)]; }
        left := left - {k};
      }
    }

    method Track(index: Index, key: string, host: string, now: int, kind: Kind)
      returns (r: Index, signal: Option<Signal>)
      ensures r == Tracked(config, index, key, host, now)
      ensures signal == Signalled(config, index, key, host, now, kind)
    {
      r := index;
      if key !in index && |index| >= MAX_TRACKED_KEYS {
        r := SweepIndex(index, now);
        if |r| >= MAX_TRACKED_KEYS { return r, None; }
      }
      var w := WindowFor(config, index, key, now);
      var hosts := PruneExpired(w.hosts[host := now], now);
      r := r[key := HostWindow(hosts, w.first, w.fired || |hosts| >= config.minHosts)];
      if w.fired || |hosts| < config.minHosts { return r, None; }
      var sorted := SortKeys(hosts.Keys);
      signal := Some(Signal(kind, key, sorted, w.first, now));
    }

    method SweepExpired(now: int)
      modifies this
      ensures
        var sweep := old(lastSweep.None? || now - lastSweep.value >= config.window);
        && byTechnique == Base(config, old(byTechnique), sweep, now)
        && byDest == Base(config, old(byDest), sweep, now)
        && lastSweep == (if sweep then Some(now) else old(lastSweep))
    {
      if lastSweep.Some? && now - lastSweep.value < config.window { return; }
      byTechnique := SweepIndex(byTechnique, now);
      byDest := SweepIndex(byDest, now);
      lastSweep := Some(now);
    }

    method TrackIfKeyed(index: Index, key: string, host: string, now: int, kind: Kind)
      returns (r: Index, signal: Option<Signal>)
      ensures r == Keyed(config, index, key, host, now)
      ensures signal == KeyedOutput(config, index, key, host, now, kind)
    {
      if key == "" { return index, None; }
      r, signal := Track(index, key, host, now, kind);
    }

    /** The new state and the signals are those of the step functions. */
    method Observe(record: Record) returns (signals: seq<Signal>)
      modifies this
      ensures State(byTechnique, byDest, lastSweep) ==
              Next(config, old(State(byTechnique, byDest, lastSweep)), record)
      ensures signals == Output(config, old(State(byTechnique, byDest, lastSweep)), record)
    {
      SweepExpired(record.time);
      var lateral, fanIn;
      byTechnique, lateral := TrackIfKeyed(byTechnique, record.technique, record.host, record.time, LateralMovement);
      byDest, fanIn := TrackIfKeyed(byDest, record.destination, record.host, record.time, C2FanIn);
      signals := AsSeq(lateral) + AsSeq(fanIn);
    }
  }

  datatype State = State(byTechnique: Index, byDest: Index, lastSweep: Option<int>)

  const INITIAL := State(map[], map[], None)

  predicate SweepsAt(c: Config, s: State, now: int) {
    s.lastSweep.None? || now - s.lastSweep.value >= c.window
  }

  function Base(c: Config, index: Index, sweep: bool, now: int): (r: Index) {
    if sweep then Sweep(index, now, c.window) else index
  }

  function Keyed(c: Config, index: Index, key: string, host: string, now: int): (r: Index) {
    if key == "" then index else Tracked(c, index, key, host, now)
  }

  ghost function KeyedOutput(c: Config, index: Index, key: string, host: string, now: int, kind: Kind)
    : (s: Option<Signal>)
  {
    if key == "" then None else Signalled(c, index, key, host, now, kind)
  }

  /** One index over one alert: a sweep or none, then the key, if the alert has one. */
  function IndexNext(c: Config, index: Index, sweep: bool, key: string, host: string, now: int): (r: Index) {
    Keyed(c, Base(c, index, sweep, now), key, host, now)
  }

  ghost function IndexOutput(c: Config, index: Index, sweep: bool, key: string, host: string, now: int, kind: Kind)
    : (s: Option<Signal>)
  {
    KeyedOutput(c, Base(c, index, sweep, now), key, host, now, kind)
  }

  function KeyOf(r: Record, kind: Kind): (k: string) {
    if kind.LateralMovement? then r.technique else r.destination
  }

  function IndexOf(s: State, kind: Kind): (i: Index) {
    if kind.LateralMovement? then s.byTechnique else s.byDest
  }

  function Next(c: Config, s: State, r: Record): (s': State) {
    var sweep := SweepsAt(c, s, r.time);
    State(IndexNext(c, s.byTechnique, sweep, r.technique, r.host, r.time),
          IndexNext(c, s.byDest, sweep, r.destination, r.host, r.time),
          if sweep then Some(r.time) else s.lastSweep)
  }

  ghost function OutputOf(c: Config, s: State, r: Record, kind: Kind): (x: Option<Signal>) {
    IndexOutput(c, IndexOf(s, kind), SweepsAt(c, s, r.time), KeyOf(r, kind), r.host, r.time, kind)
  }

  ghost function Output(c: Config, s: State, r: Record): (signals: seq<Signal>) {
    AsSeq(OutputOf(c, s, r, LateralMovement)) + AsSeq(OutputOf(c, s, r, C2FanIn))
  }

  /** The state after a run of alerts. */
  function After(c: Config, run: seq<Record>): (s: State) {
    if run == [] then INITIAL else Next(c, After(c, run[..|run| - 1]), run[|run| - 1])
  }
}
