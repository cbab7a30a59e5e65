/** The fleet-wide correlator emits exactly the signals of its plain specification: cut each
    key's history into windows, and fire once when a window first holds enough hosts. */
module CrossHostExact {
  import opened Text
  import opened Sorting
  import opened CrossHost

  // ----- the plain specification -----

  datatype Sighting = Sighting(host: string, time: int)

  /** The sightings of one key, in order. */
  ghost function History(run: seq<Record>, kind: Kind, key: string): (h: seq<Sighting>) {
    if run == [] then []
    else
      var init, last := run[..|run| - 1], run[|run| - 1];
      History(init, kind, key) + (if KeyOf(last, kind) == key then [Sighting(last.host, last.time)] else [])
  }

  /** The last window of a history: a sighting later than the window's first by more than the
      duration starts a new one. */
  ghost function LastWindow(window: int, h: seq<Sighting>): (w: seq<Sighting>)
    ensures w == [] <==> h == []
  {
    if h == [] then [] else Extend(window, LastWindow(window, h[..|h| - 1]), h[|h| - 1])
  }

  ghost function Extend(window: int, w: seq<Sighting>, x: Sighting): (r: seq<Sighting>)
    ensures r != []
  {
    if w != [] && x.time - w[0].time <= window then w + [x] else [x]
  }

  ghost function Hosts(w: seq<Sighting>): (s: set<string>) {
    set i | 0 <= i < |w| :: w[i].host
  }

  /** The last sighting brings the window to enough distinct hosts for the first time. */
  ghost predicate Fires(c: Config, w: seq<Sighting>)
    requires w != []
  {
    |Hosts(w)| >= c.minHosts && (|w| == 1 || |Hosts(w[..|w| - 1])| < c.minHosts)
  }

  ghost function SpecSignal(c: Config, w: seq<Sighting>, kind: Kind, key: string): (s: Option<Signal>)
    requires w != []
  {
    if Fires(c, w) then Some(Signal(kind, key, Sorted(Hosts(w)), w[0].time, w[|w| - 1].time)) else None
  }

  ghost function SpecOutput(c: Config, run: seq<Record>, r: Record, kind: Kind): (s: Option<Signal>) {
    var key := KeyOf(r, kind);
    if key == "" then None
    else
      var w := LastWindow(c.window, History(run, kind, key));
      SpecSignal(c, Extend(c.window, w, Sighting(r.host, r.time)), kind, key)
  }

  // ----- what the index holds of a key -----

  ghost predicate Represents(c: Config, hw: HostWindow, w: seq<Sighting>)
    requires w != []
  {
    && hw.first == w[0].time && hw.hosts.Keys == Hosts(w) && hw.fired == (|Hosts(w)| >= c.minHosts)
    && forall h :: h in hw.hosts ==> hw.hosts[h] >= w[0].time
  }

  /** A live window is held exactly; of a dead one only its age matters. */
  ghost predicate KeyHeld(c: Config, index: Index, key: string, w: seq<Sighting>, now: int) {
    if w == [] then key !in index
    else if now < w[0].time then false
    else if now - w[0].time <= c.window then key in index && Represents(c, index[key], w)
    else key in index ==> now - index[key].first > c.window
  }

  lemma TimePasses(c: Config, index: Index, key: string, w: seq<Sighting>, now: int, later: int)
    requires KeyHeld(c, index, key, w, now) && now <= later
    ensures KeyHeld(c, index, key, w, later)
  {
  }

  lemma PruneKeeps(hosts: map<string, int>, now: int, window: int)
    requires forall h :: h in hosts ==> now - hosts[h] <= window
    ensures Prune(hosts, now, window) == hosts
  {
  }

  lemma HostsNonEmpty(w: seq<Sighting>)
    requires w != []
    ensures Hosts(w) != {}
  {
    assert w[0].host in Hosts(w);
  }

  /** Sweeping keeps live windows as they are. */
  lemma SweepKeeps(c: Config, index: Index, key: string, w: seq<Sighting>, now: int)
    requires KeyHeld(c, index, key, w, now)
    ensures KeyHeld(c, Sweep(index, now, c.window), key, w, now)
  {
    if w != [] && now - w[0].time <= c.window {
      PruneKeeps(index[key].hosts, now, c.window);
      HostsNonEmpty(w);
      assert index[key].hosts != map[];
      assert Swept(index[key], now, c.window) == index[key];
    }
  }

  lemma HostsSnoc(w: seq<Sighting>, x: Sighting)
    ensures Hosts(w + [x]) == Hosts(w) + {x.host}
  {
    var r := w + [x];
    assert forall i :: 0 <= i < |w| ==> r[i] == w[i];
    assert r[|w|] == x;
    forall h | h in Hosts(w) ensures h in Hosts(r) {
      var i :| 0 <= i < |w| && w[i].host == h;
      assert r[i].host == h;
    }
  }

  /** The window the index uses for a sighting is the last window, or an empty one. */
  lemma WindowForMeans(c: Config, index: Index, key: string, w: seq<Sighting>, now: int)
    requires KeyHeld(c, index, key, w, now)
    ensures
      if w != [] && now - w[0].time <= c.window then
        WindowFor(c, index, key, now) == index[key] && Represents(c, index[key], w)
      else WindowFor(c, index, key, now) == HostWindow(map[], now, false)
  {
  }

  ghost predicate SightingExact(c: Config, hw: HostWindow, x: Sighting, w: seq<Sighting>)
    requires w != []
  {
    && Represents(c, Sighted(c, hw, x.host, x.time), w)
    && Prune(hw.hosts[x.host := x.time], x.time, c.window).Keys == Hosts(w)
    && (!hw.fired && |Hosts(w)| >= c.minHosts <==> Fires(c, w))
    && hw.first == w[0].time && x == w[|w| - 1]
  }

  lemma LiveSighting(c: Config, hw: HostWindow, w: seq<Sighting>, x: Sighting)
    requires w != [] && 0 <= x.time - w[0].time <= c.window && Represents(c, hw, w)
    ensures SightingExact(c, hw, x, w + [x])
  {
    var hosts := hw.hosts[x.host := x.time];
    PruneKeeps(hosts, x.time, c.window);
    HostsSnoc(w, x);
    assert (w + [x])[..|w|] == w;
    Monotone(Hosts(w), Hosts(w + [x]));
    assert hosts.Keys == Hosts(w + [x]);
  }

  lemma FreshSighting(c: Config, x: Sighting)
    requires c.window >= 0
    ensures SightingExact(c, HostWindow(map[], x.time, false), x, [x])
  {
    var hosts: map<string, int> := map[][x.host := x.time];
    PruneKeeps(hosts, x.time, c.window);
    HostsSnoc([], x);
    assert [] + [x] == [x] && hosts.Keys == Hosts([x]);
  }

  /** One sighting: the window extends as the specification says and fires when it says. */
  lemma SightedMeans(c: Config, index: Index, key: string, w: seq<Sighting>, x: Sighting)
    requires c.window >= 0 && KeyHeld(c, index, key, w, x.time)
    ensures SightingExact(c, WindowFor(c, index, key, x.time), x, Extend(c.window, w, x))
  {
    WindowForMeans(c, index, key, w, x.time);
    if w != [] && x.time - w[0].time <= c.window {
      LiveSighting(c, index[key], w, x);
    } else {
      FreshSighting(c, x);
    }
  }

  lemma Monotone<T>(a: set<T>, b: set<T>)
    requires a <= b
    ensures |a| <= |b|
  {
    if a != b {
      assert b == a + (b - a);
    }
  }

  // ----- one key over a run -----

  ghost predicate InTimeOrder(run: seq<Record>) {
    forall i, j :: 0 <= i <= j < |run| ==> run[i].time <= run[j].time
  }

  /** The alert's key is new to a full index, and sweeping does not make room. */
  predicate RefusedAt(c: Config, s: State, r: Record, kind: Kind) {
    KeyOf(r, kind) != "" &&
    Refused(c, Base(c, IndexOf(s, kind), SweepsAt(c, s, r.time), r.time), KeyOf(r, kind), r.time)
  }

  /** No alert of this key was refused; what became of other keys does not matter. */
  ghost predicate NotRefused(c: Config, run: seq<Record>, kind: Kind, key: string) {
    if run == [] then true
    else
      var init, last := run[..|run| - 1], run[|run| - 1];
      NotRefused(c, init, kind, key) && (KeyOf(last, kind) == key ==> !RefusedAt(c, After(c, init), last, kind))
  }

  lemma HistorySnoc(run: seq<Record>, r: Record, kind: Kind, key: string)
    ensures History(run + [r], kind, key) ==
            History(run, kind, key) + (if KeyOf(r, kind) == key then [Sighting(r.host, r.time)] else [])
  {
    assert (run + [r])[..|run|] == run;
  }

  lemma WindowSnoc(c: Config, run: seq<Record>, r: Record, kind: Kind, key: string)
    ensures
      var w := LastWindow(c.window, History(run, kind, key));
      LastWindow(c.window, History(run + [r], kind, key)) ==
      if KeyOf(r, kind) == key then Extend(c.window, w, Sighting(r.host, r.time)) else w
  {
    HistorySnoc(run, r, kind, key);
    var h, x := History(run, kind, key), Sighting(r.host, r.time);
    assert (h + [x])[..|h|] == h;
    assert h + [] == h;
  }

  /** Tracking another key leaves this one alone, up to the sweep that makes room for it. */
  lemma OtherKeyHeld(c: Config, index: Index, key: string, w: seq<Sighting>, other: string, host: string, now: int)
    requires KeyHeld(c, index, key, w, now) && key != other
    ensures KeyHeld(c, Keyed(c, index, other, host, now), key, w, now)
  {
    SweepKeeps(c, index, key, w, now);
  }

  /** An alert of the key itself: the window extends, and the signal is the specification's. */
  lemma OwnKeyHeld(c: Config, index: Index, w: seq<Sighting>, r: Record, kind: Kind)
    requires c.window >= 0 && KeyOf(r, kind) != "" && KeyHeld(c, index, KeyOf(r, kind), w, r.time)
    requires !Refused(c, index, KeyOf(r, kind), r.time)
    ensures
      var key, x := KeyOf(r, kind), Sighting(r.host, r.time);
      && KeyHeld(c, Keyed(c, index, key, r.host, r.time), key, Extend(c.window, w, x), r.time)
      && KeyedOutput(c, index, key, r.host, r.time, kind) == SpecSignal(c, Extend(c.window, w, x), kind, key)
  {
    SightedMeans(c, index, KeyOf(r, kind), w, Sighting(r.host, r.time));
  }

  /** One alert through one index, whether or not a sweep comes first or room has to be made. */
  lemma StepExact(
    c: Config, index: Index, run: seq<Record>, r: Record, kind: Kind, key: string, before: int, sweep: bool)
    requires c.window >= 0 && before <= r.time && key != ""
    requires KeyHeld(c, index, key, LastWindow(c.window, History(run, kind, key)), before)
    requires KeyOf(r, kind) == key ==> !Refused(c, Base(c, index, sweep, r.time), key, r.time)
    ensures KeyHeld(c, IndexNext(c, index, sweep, KeyOf(r, kind), r.host, r.time), key,
                    LastWindow(c.window, History(run + [r], kind, key)), r.time)
    ensures KeyOf(r, kind) == key ==>
              IndexOutput(c, index, sweep, key, r.host, r.time, kind) == SpecOutput(c, run, r, kind)
  {
    var base, w := Base(c, index, sweep, r.time), LastWindow(c.window, History(run, kind, key));
    TimePasses(c, index, key, w, before, r.time);
    SweepKeeps(c, index, key, w, r.time);
    WindowSnoc(c, run, r, kind, key);
    if KeyOf(r, kind) == key {
      OwnKeyHeld(c, base, w, r, kind);
    } else {
      OtherKeyHeld(c, base, key, w, KeyOf(r, kind), r.host, r.time);
    }
  }

  lemma AfterSnoc(c: Config, run: seq<Record>, r: Record, kind: Kind)
    ensures
      var s := After(c, run);
      IndexOf(After(c, run + [r]), kind) ==
      IndexNext(c, IndexOf(s, kind), SweepsAt(c, s, r.time), KeyOf(r, kind), r.host, r.time)
  {
    assert (run + [r])[..|run|] == run;
  }

  lemma RunStep(c: Config, run: seq<Record>, r: Record, kind: Kind, key: string)
    requires c.window >= 0 && key != "" && (KeyOf(r, kind) == key ==> !RefusedAt(c, After(c, run), r, kind))
    requires KeyHeld(c, IndexOf(After(c, run), kind), key, LastWindow(c.window, History(run, kind, key)), r.time)
    ensures KeyHeld(c, IndexOf(After(c, run + [r]), kind), key,
                    LastWindow(c.window, History(run + [r], kind, key)), r.time)
  {
    var s := After(c, run);
    AfterSnoc(c, run, r, kind);
    StepExact(c, IndexOf(s, kind), run, r, kind, key, r.time, SweepsAt(c, s, r.time));
  }

  /** As long as a key is not refused, the index holds its last window. */
  lemma {:induction false} RunHeld(c: Config, run: seq<Record>, kind: Kind, key: string, now: int)
    requires c.window >= 0 && key != "" && InTimeOrder(run) && NotRefused(c, run, kind, key)
    requires run != [] ==> now >= run[|run| - 1].time
    ensures KeyHeld(c, IndexOf(After(c, run), kind), key, LastWindow(c.window, History(run, kind, key)), now)
    decreases |run|
  {
    if run != [] {
      var init, last := run[..|run| - 1], run[|run| - 1];
      RunHeld(c, init, kind, key, last.time);
      RunStep(c, init, last, kind, key);
      InitLast(run);
      TimePasses(c, IndexOf(After(c, run), kind), key, LastWindow(c.window, History(run, kind, key)), last.time, now);
    }
  }

  lemma RunSnoc(run: seq<Record>, r: Record)
    requires InTimeOrder(run + [r])
    ensures (run + [r])[..|run|] == run && InTimeOrder(run) && (run != [] ==> run[|run| - 1].time <= r.time)
  {
    assert (run + [r])[|run|] == r;
    assert forall i :: 0 <= i < |run| ==> run[i] == (run + [r])[i];
  }

  /** On every run with non-decreasing times, an alert whose key was never refused triggers
      exactly the signal of the plain specification, whatever was pruned, swept or reclaimed,
      and whatever other keys were refused. */
  lemma SignalExact(c: Config, run: seq<Record>, r: Record, kind: Kind)
    requires c.window >= 0 && InTimeOrder(run + [r]) && NotRefused(c, run + [r], kind, KeyOf(r, kind))
    ensures OutputOf(c, After(c, run), r, kind) == SpecOutput(c, run, r, kind)
  {
    RunSnoc(run, r);
    var key, s := KeyOf(r, kind), After(c, run);
    if key != "" {
      RunHeld(c, run, kind, key, r.time);
      StepExact(c, IndexOf(s, kind), run, r, kind, key, r.time, SweepsAt(c, s, r.time));
    }
  }

  lemma SignalsExact(c: Config, run: seq<Record>, r: Record)
    requires c.window >= 0 && InTimeOrder(run + [r])
    requires forall kind :: NotRefused(c, run + [r], kind, KeyOf(r, kind))
    ensures Output(c, After(c, run), r) ==
            AsSeq(SpecOutput(c, run, r, LateralMovement)) + AsSeq(SpecOutput(c, run, r, C2FanIn))
  {
    SignalExact(c, run, r, LateralMovement);
    SignalExact(c, run, r, C2FanIn);
  }

  // ----- at any times at all -----

  /** Every host time an index holds comes from an alert of the run. */
  ghost predicate Sourced(index: Index, run: seq<Record>, kind: Kind) {
    forall k, h :: k in index && h in index[k].hosts ==> Seen(run, kind, k, h, index[k].hosts[h])
  }

  ghost predicate Seen(run: seq<Record>, kind: Kind, key: string, host: string, time: int) {
    exists i :: 0 <= i < |run| && KeyOf(run[i], kind) == key && run[i].host == host && run[i].time == time
  }

  lemma SeenGrows(run: seq<Record>, r: Record, kind: Kind, key: string, host: string, time: int)
    requires Seen(run, kind, key, host, time)
    ensures Seen(run + [r], kind, key, host, time)
  {
    var i :| 0 <= i < |run| && KeyOf(run[i], kind) == key && run[i].host == host && run[i].time == time;
    assert (run + [r])[i] == run[i];
  }

  lemma SweepShrinks(index: Index, now: int, window: int)
    ensures |Sweep(index, now, window)| <= |index|
  {
    Monotone(Sweep(index, now, window).Keys, index.Keys);
  }

  lemma TrackedWithinCap(c: Config, index: Index, key: string, host: string, now: int)
    requires |index| <= MAX_TRACKED_KEYS
    ensures |Tracked(c, index, key, host, now)| <= MAX_TRACKED_KEYS
  {
    SweepShrinks(index, now, c.window);
    var base := Reclaimed(c, index, key, now);
    var r := Tracked(c, index, key, host, now);
    assert r.Keys <= base.Keys + {key};
    Monotone(r.Keys, base.Keys + {key});
    if key in index { assert base.Keys + {key} == base.Keys; }
  }

  lemma TrackedSourced(c: Config, index: Index, run: seq<Record>, r: Record, kind: Kind)
    requires Sourced(index, run, kind)
    ensures Sourced(Tracked(c, index, KeyOf(r, kind), r.host, r.time), run + [r], kind)
  {
    var key := KeyOf(r, kind);
    var index' := Tracked(c, index, key, r.host, r.time);
    forall k, h | k in index' && h in index'[k].hosts ensures Seen(run + [r], kind, k, h, index'[k].hosts[h]) {
      if k == key && h == r.host && index'[k].hosts[h] == r.time {
        assert (run + [r])[|run|] == r;
      } else {
        assert k in index && h in index[k].hosts && index'[k].hosts[h] == index[k].hosts[h];
        SeenGrows(run, r, kind, k, h, index[k].hosts[h]);
      }
    }
  }

  lemma SweepSourced(index: Index, run: seq<Record>, kind: Kind, now: int, window: int)
    requires Sourced(index, run, kind)
    ensures Sourced(Sweep(index, now, window), run, kind)
  {
  }

  /** Whatever the times, no index exceeds the cap and every host in it was seen. */
  lemma {:induction false} RunBounded(c: Config, run: seq<Record>, kind: Kind)
    ensures |IndexOf(After(c, run), kind)| <= MAX_TRACKED_KEYS
    ensures Sourced(IndexOf(After(c, run), kind), run, kind)
  {
    if run != [] {
      var init, last := run[..|run| - 1], run[|run| - 1];
      InitLast(run);
      RunBounded(c, init, kind);
      StepBounded(c, IndexOf(After(c, init), kind), init, last, kind, SweepsAt(c, After(c, init), last.time));
    }
  }

  lemma StepBounded(c: Config, index: Index, run: seq<Record>, r: Record, kind: Kind, sweep: bool)
    requires |index| <= MAX_TRACKED_KEYS && Sourced(index, run, kind)
    ensures |IndexNext(c, index, sweep, KeyOf(r, kind), r.host, r.time)| <= MAX_TRACKED_KEYS
    ensures Sourced(IndexNext(c, index, sweep, KeyOf(r, kind), r.host, r.time), run + [r], kind)
  {
    SweepShrinks(index, r.time, c.window);
    SweepSourced(index, run, kind, r.time, c.window);
    var base := Base(c, index, sweep, r.time);
    TrackedWithinCap(c, base, KeyOf(r, kind), r.host, r.time);
    TrackedSourced(c, base, run, r, kind);
    forall k, h | k in base && h in base[k].hosts ensures Seen(run + [r], kind, k, h, base[k].hosts[h]) {
      SeenGrows(run, r, kind, k, h, base[k].hosts[h]);
    }
  }

  // ----- when a key is refused -----

  /** The other keys sighted no longer before the alert than the window. */
  ghost function LiveOthers(c: Config, run: seq<Record>, r: Record, kind: Kind): (s: set<string>) {
    set i | 0 <= i < |run| && Live(c, run, i, r, kind) :: KeyOf(run[i], kind)
  }

  ghost predicate Live(c: Config, run: seq<Record>, i: nat, r: Record, kind: Kind) {
    i < |run| && KeyOf(run[i], kind) != "" && KeyOf(run[i], kind) != KeyOf(r, kind) && r.time - run[i].time <= c.window
  }

  lemma {:induction false} NoEmptyKey(c: Config, run: seq<Record>, kind: Kind)
    ensures "" !in IndexOf(After(c, run), kind)
    decreases |run|
  {
    if run != [] {
      var init, last := run[..|run| - 1], run[|run| - 1];
      NoEmptyKey(c, init, kind);
      AfterSnoc(c, init, last, kind);
      InitLast(run);
      var s := After(c, init);
      NoEmptyStep(c, IndexOf(s, kind), SweepsAt(c, s, last.time), KeyOf(last, kind), last.host, last.time);
    }
  }

  lemma NoEmptyStep(c: Config, index: Index, sweep: bool, key: string, host: string, now: int)
    requires "" !in index
    ensures "" !in IndexNext(c, index, sweep, key, host, now)
  {
  }

  /** What survives a sweep was sighted within the window. */
  lemma SweptIsLive(c: Config, index: Index, run: seq<Record>, r: Record, kind: Kind)
    requires Sourced(index, run, kind) && "" !in index && KeyOf(r, kind) !in index
    ensures Sweep(index, r.time, c.window).Keys <= LiveOthers(c, run, r, kind)
  {
    forall k | k in Sweep(index, r.time, c.window) ensures k in LiveOthers(c, run, r, kind) {
      var hosts := Prune(index[k].hosts, r.time, c.window);
      assert hosts.Keys != {};
      var h :| h in hosts;
      assert Seen(run, kind, k, h, hosts[h]);
      var i :| 0 <= i < |run| && KeyOf(run[i], kind) == k && run[i].host == h && run[i].time == hosts[h];
      assert Live(c, run, i, r, kind);
    }
  }

  /** Whatever the times: an alert is accepted while fewer than the cap of other keys were
      sighted within the window. */
  lemma RoomIfFewLive(c: Config, run: seq<Record>, r: Record, kind: Kind)
    requires |LiveOthers(c, run, r, kind)| < MAX_TRACKED_KEYS
    ensures !RefusedAt(c, After(c, run), r, kind)
  {
    var s, key := After(c, run), KeyOf(r, kind);
    var base := Base(c, IndexOf(s, kind), SweepsAt(c, s, r.time), r.time);
    if key != "" && key !in base {
      RunBounded(c, run, kind);
      NoEmptyKey(c, run, kind);
      SweepSourced(IndexOf(s, kind), run, kind, r.time, c.window);
      SweptIsLive(c, base, run, r, kind);
      Monotone(Sweep(base, r.time, c.window).Keys, LiveOthers(c, run, r, kind));
    }
  }

  /** At every alert of the run fewer than the cap of other keys were sighted within the window. */
  ghost predicate FewLive(c: Config, run: seq<Record>, kind: Kind) {
    if run == [] then true
    else
      var init, last := run[..|run| - 1], run[|run| - 1];
      FewLive(c, init, kind) && |LiveOthers(c, init, last, kind)| < MAX_TRACKED_KEYS
  }

  lemma {:induction false} FewLiveNotRefused(c: Config, run: seq<Record>, kind: Kind, key: string)
    requires FewLive(c, run, kind)
    ensures NotRefused(c, run, kind, key)
    decreases |run|
  {
    if run != [] {
      FewLiveNotRefused(c, run[..|run| - 1], kind, key);
      RoomIfFewLive(c, run[..|run| - 1], run[|run| - 1], kind);
    }
  }

  /** However many keys a run has seen: while few are live at once, every alert triggers
      exactly the signals of the plain specification. */
  lemma SignalsExactIfFewLive(c: Config, run: seq<Record>, r: Record)
    requires c.window >= 0 && InTimeOrder(run + [r]) && forall kind :: FewLive(c, run + [r], kind)
    ensures Output(c, After(c, run), r) ==
            AsSeq(SpecOutput(c, run, r, LateralMovement)) + AsSeq(SpecOutput(c, run, r, C2FanIn))
  {
    forall kind ensures NotRefused(c, run + [r], kind, KeyOf(r, kind)) {
      FewLiveNotRefused(c, run + [r], kind, KeyOf(r, kind));
    }
    SignalsExact(c, run, r);
  }

  /** The key is held with a host seen at time t or later. */
  ghost predicate HeldSince(index: Index, key: string, t: int) {
    key in index && exists h :: h in index[key].hosts && index[key].hosts[h] >= t
  }

  lemma SweepHolds(index: Index, key: string, t: int, now: int, window: int)
    requires HeldSince(index, key, t) && now - t <= window
    ensures HeldSince(Sweep(index, now, window), key, t)
  {
    var h :| h in index[key].hosts && index[key].hosts[h] >= t;
    assert h in Prune(index[key].hosts, now, window);
  }

  lemma StepHolds(c: Config, index: Index, sweep: bool, key: string, t: int, other: string, host: string, now: int)
    requires c.window >= 0 && HeldSince(index, key, t) && t <= now && now - t <= c.window
    ensures HeldSince(IndexNext(c, index, sweep, other, host, now), key, t)
  {
    SweepHolds(index, key, t, now, c.window);
    var base := Base(c, index, sweep, now);
    SweepHolds(base, key, t, now, c.window);
    if key == other && key != "" { SightedHolds(c, base, key, host, now); }
  }

  lemma SightedHolds(c: Config, index: Index, key: string, host: string, now: int)
    requires c.window >= 0 && key != "" && !Refused(c, index, key, now)
    ensures HeldSince(Keyed(c, index, key, host, now), key, now)
  {
    var hw := Sighted(c, WindowFor(c, index, key, now), host, now);
    assert host in hw.hosts && hw.hosts[host] == now;
  }

  /** A key sighted within the window is in the index, unless it was refused. */
  lemma {:induction false} RecentHeld(c: Config, run: seq<Record>, kind: Kind, i: nat, now: int)
    requires c.window >= 0 && InTimeOrder(run) && i < |run| && KeyOf(run[i], kind) != ""
    requires NotRefused(c, run, kind, KeyOf(run[i], kind))
    requires run[|run| - 1].time <= now && now - run[i].time <= c.window
    ensures HeldSince(IndexOf(After(c, run), kind), KeyOf(run[i], kind), run[i].time)
    decreases |run|
  {
    var init, last := run[..|run| - 1], run[|run| - 1];
    var s, key := After(c, init), KeyOf(run[i], kind);
    assert run == init + [last] && run[i].time <= last.time;
    RunSnoc(init, last);
    AfterSnoc(c, init, last, kind);
    if i == |run| - 1 {
      SightedHolds(c, Base(c, IndexOf(s, kind), SweepsAt(c, s, last.time), last.time), key, last.host, last.time);
    } else {
      RecentHeld(c, init, kind, i, last.time);
      var index, sweep := IndexOf(s, kind), SweepsAt(c, s, last.time);
      StepHolds(c, index, sweep, key, run[i].time, KeyOf(last, kind), last.host, last.time);
    }
  }

  lemma LiveIsSwept(c: Config, run: seq<Record>, r: Record, kind: Kind)
    requires c.window >= 0 && InTimeOrder(run + [r]) && forall key :: NotRefused(c, run, kind, key)
    ensures
      var s := After(c, run);
      var base := Base(c, IndexOf(s, kind), SweepsAt(c, s, r.time), r.time);
      LiveOthers(c, run, r, kind) <= Sweep(base, r.time, c.window).Keys
  {
    var s := After(c, run);
    var base := Base(c, IndexOf(s, kind), SweepsAt(c, s, r.time), r.time);
    RunSnoc(run, r);
    forall k | k in LiveOthers(c, run, r, kind) ensures k in Sweep(base, r.time, c.window) {
      var i :| 0 <= i < |run| && Live(c, run, i, r, kind) && KeyOf(run[i], kind) == k;
      RecentHeld(c, run, kind, i, r.time);
      SweepHolds(IndexOf(s, kind), k, run[i].time, r.time, c.window);
      SweepHolds(base, k, run[i].time, r.time, c.window);
    }
  }

  /** As many live keys as the cap are all the index has room for. */
  lemma FullOfLive(c: Config, run: seq<Record>, r: Record, kind: Kind)
    requires c.window >= 0 && InTimeOrder(run + [r]) && forall key :: NotRefused(c, run, kind, key)
    requires |LiveOthers(c, run, r, kind)| >= MAX_TRACKED_KEYS
    ensures
      var s := After(c, run);
      KeyOf(r, kind) !in Base(c, IndexOf(s, kind), SweepsAt(c, s, r.time), r.time)
  {
    var s := After(c, run);
    var base := Base(c, IndexOf(s, kind), SweepsAt(c, s, r.time), r.time);
    RunBounded(c, run, kind);
    SweepShrinks(IndexOf(s, kind), r.time, c.window);
    LiveIsSwept(c, run, r, kind);
    SweepShrinks(base, r.time, c.window);
    assert LiveOthers(c, run, r, kind) <= base.Keys - {KeyOf(r, kind)};
    Monotone(LiveOthers(c, run, r, kind), base.Keys - {KeyOf(r, kind)});
  }

  /** The first refusal: exactly when as many other keys as the cap were sighted within the
      window. */
  lemma RefusedExactly(c: Config, run: seq<Record>, r: Record, kind: Kind)
    requires c.window >= 0 && InTimeOrder(run + [r]) && forall key :: NotRefused(c, run, kind, key)
    ensures RefusedAt(c, After(c, run), r, kind) <==>
            KeyOf(r, kind) != "" && |LiveOthers(c, run, r, kind)| >= MAX_TRACKED_KEYS
  {
    var s := After(c, run);
    var base := Base(c, IndexOf(s, kind), SweepsAt(c, s, r.time), r.time);
    if |LiveOthers(c, run, r, kind)| < MAX_TRACKED_KEYS {
      RoomIfFewLive(c, run, r, kind);
    } else {
      FullOfLive(c, run, r, kind);
      LiveIsSwept(c, run, r, kind);
      Monotone(LiveOthers(c, run, r, kind), Sweep(base, r.time, c.window).Keys);
      SweepShrinks(base, r.time, c.window);
    }
  }

  // ----- what a signal lists -----

  /** A signal lists enough distinct hosts, each seen on the key no longer ago than the
      window. */
  ghost predicate Justified(c: Config, run: seq<Record>, r: Record, kind: Kind, s: Signal) {
    && s.key == KeyOf(r, kind) && s.kind == kind && s.lastSeen == r.time
    && |s.hosts| >= c.minHosts && StrictlySorted(s.hosts)
    && forall h :: h in s.hosts ==> exists t :: r.time - t <= c.window && Seen(run + [r], kind, s.key, h, t)
  }

  lemma SignalsJustified(c: Config, run: seq<Record>, r: Record, kind: Kind)
    requires OutputOf(c, After(c, run), r, kind).Some?
    ensures Justified(c, run, r, kind, OutputOf(c, After(c, run), r, kind).value)
  {
    var s := After(c, run);
    var base := Base(c, IndexOf(s, kind), SweepsAt(c, s, r.time), r.time);
    RunBounded(c, run, kind);
    SweepSourced(IndexOf(s, kind), run, kind, r.time, c.window);
    var key := KeyOf(r, kind);
    var w := WindowFor(c, base, key, r.time);
    var hosts := Prune(w.hosts[r.host := r.time], r.time, c.window);
    var signal := OutputOf(c, s, r, kind).value;
    assert signal.hosts == Sorted(hosts.Keys);
    forall h | h in signal.hosts ensures exists t :: r.time - t <= c.window && Seen(run + [r], kind, key, h, t) {
      assert h in Elements(signal.hosts);
      if h == r.host {
        assert (run + [r])[|run|] == r;
        assert Seen(run + [r], kind, key, h, r.time);
      } else {
        SeenGrows(run, r, kind, key, h, base[key].hosts[h]);
      }
    }
  }

  ghost predicate NoHosts(index: Index) {
    forall k :: k in index ==> index[k].hosts == map[]
  }

  lemma NegativeStep(c: Config, index: Index, sweep: bool, key: string, host: string, now: int, kind: Kind)
    requires c.window < 0 && c.minHosts >= 1 && NoHosts(index)
    ensures NoHosts(IndexNext(c, index, sweep, key, host, now))
    ensures IndexOutput(c, index, sweep, key, host, now, kind) == None
  {
    assert Prune(map[host := now], now, c.window) == map[];
    assert map[][host := now] == map[host := now];
  }

  lemma {:induction false} NegativeHoldsNothing(c: Config, run: seq<Record>, kind: Kind)
    requires c.window < 0 && c.minHosts >= 1
    ensures NoHosts(IndexOf(After(c, run), kind))
    decreases |run|
  {
    if run != [] {
      var init, last := run[..|run| - 1], run[|run| - 1];
      NegativeHoldsNothing(c, init, kind);
      AfterSnoc(c, init, last, kind);
      InitLast(run);
      var s := After(c, init);
      NegativeStep(c, IndexOf(s, kind), SweepsAt(c, s, last.time), KeyOf(last, kind), last.host, last.time, kind);
    }
  }

  lemma NegativeRunIsSilent(c: Config, run: seq<Record>, r: Record, kind: Kind)
    requires c.window < 0 && c.minHosts >= 1
    ensures OutputOf(c, After(c, run), r, kind) == None
  {
    NegativeHoldsNothing(c, run, kind);
    var s := After(c, run);
    NegativeStep(c, IndexOf(s, kind), SweepsAt(c, s, r.time), KeyOf(r, kind), r.host, r.time, kind);
  }

  /** With a negative window every sighting is pruned at once: no run ever fires. */
  lemma NegativeWindowIsSilent(c: Config, run: seq<Record>, r: Record)
    requires c.window < 0 && c.minHosts >= 1
    ensures Output(c, After(c, run), r) == []
  {
    NegativeRunIsSilent(c, run, r, LateralMovement);
    NegativeRunIsSilent(c, run, r, C2FanIn);
  }

  // ----- which configurations meet the specification -----

  lemma {:induction false} WindowStart(window: int, h: seq<Sighting>, t: int)
    requires forall i :: 0 <= i < |h| ==> h[i].time <= t
    ensures LastWindow(window, h) != [] ==> LastWindow(window, h)[0].time <= t
  {
    if h != [] { WindowStart(window, h[..|h| - 1], t); }
  }

  lemma {:induction false} HistoryTimes(run: seq<Record>, kind: Kind, key: string, t: int)
    requires forall i :: 0 <= i < |run| ==> run[i].time <= t
    ensures forall i :: 0 <= i < |History(run, kind, key)| ==> History(run, kind, key)[i].time <= t
  {
    if run != [] { HistoryTimes(run[..|run| - 1], kind, key, t); }
  }

  /** With a negative window every window of the specification holds one sighting. */
  lemma NegativeSpecIsSilent(c: Config, run: seq<Record>, r: Record, kind: Kind)
    requires c.window < 0 && c.minHosts >= 2 && InTimeOrder(run + [r])
    ensures SpecOutput(c, run, r, kind) == None
  {
    var x := Sighting(r.host, r.time);
    assert forall i :: 0 <= i < |run| ==> run[i].time <= r.time by {
      forall i | 0 <= i < |run| ensures run[i].time <= r.time {
        assert run[i] == (run + [r])[i] && (run + [r])[|run|] == r;
      }
    }
    HistoryTimes(run, kind, KeyOf(r, kind), r.time);
    WindowStart(c.window, History(run, kind, KeyOf(r, kind)), r.time);
    HostsSnoc([], x);
    assert [] + [x] == [x] && Hosts([x]) == {r.host};
  }

  const ONE_ALERT := Record("T1021", "", "web-1", 0)

  /** The first alert of all: the specification has one host, the code has pruned it. */
  lemma SingleHostDiffers(c: Config)
    requires c.window < 0 && c.minHosts <= 1
    ensures InTimeOrder([] + [ONE_ALERT]) && NotRefused(c, [] + [ONE_ALERT], LateralMovement, "T1021")
    ensures OutputOf(c, After(c, []), ONE_ALERT, LateralMovement) != SpecOutput(c, [], ONE_ALERT, LateralMovement)
  {
    var x, index := Sighting("web-1", 0), map[];
    assert [] + [ONE_ALERT] == [ONE_ALERT] && [ONE_ALERT][..0] == [];
    assert Sweep(index, 0, c.window) == map[];
    HostsSnoc([], x);
    assert [] + [x] == [x] && Hosts([x]) == {"web-1"};
    var hosts: map<string, int> := map["web-1" := 0];
    assert Prune(hosts, 0, c.window) == map[];
    assert map[]["web-1" := 0] == hosts;
    assert "web-1" in Elements(Sorted({"web-1"}));
    EmptyElements(Sorted({}));
  }

  /** On every run in time order, every alert whose key was never refused has its signal. */
  ghost predicate MeetsSpecification(c: Config) {
    forall run, r, kind :: InTimeOrder(run + [r]) && NotRefused(c, run + [r], kind, KeyOf(r, kind)) ==>
      OutputOf(c, After(c, run), r, kind) == SpecOutput(c, run, r, kind)
  }

  /** The configurations that do: a window that is not negative, or a threshold of two hosts. */
  lemma MeetsSpecificationExactly(c: Config)
    ensures MeetsSpecification(c) <==> c.window >= 0 || c.minHosts >= 2
  {
    if c.window >= 0 || c.minHosts >= 2 {
      forall run, r, kind | InTimeOrder(run + [r]) && NotRefused(c, run + [r], kind, KeyOf(r, kind))
        ensures OutputOf(c, After(c, run), r, kind) == SpecOutput(c, run, r, kind)
      {
        if c.window >= 0 {
          SignalExact(c, run, r, kind);
        } else {
          NegativeSpecIsSilent(c, run, r, kind);
          NegativeRunIsSilent(c, run, r, kind);
        }
      }
    } else {
      SingleHostDiffers(c);
    }
  }
}
