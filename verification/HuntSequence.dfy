/** Sequence hunts: the greedy, windowed matcher over one time-ordered group of events.

    An event is referred to by its position in the group, as the source refers to it by
    pointer: two equal events at different positions are different. */
module HuntSequence {
  import opened Text
  import opened Model
  import opened Stdlib
  import opened Arql

  /** One group of events as the matcher sees it: the events' times, and for each stage the
      outcome of its test on each event. */
  datatype Hunt = Hunt(times: seq<int>, within: int, hits: seq<seq<bool>>)

  /** The hunt a parsed sequence query runs on a group. */
  function HuntOf(lib: Lib, q: Query, group: seq<Event>): (h: Hunt)
    requires q.Sequence?
  {
    Hunt(seq(|group|, i requires 0 <= i < |group| => group[i].timestamp), q.within,
         seq(|q.stages|, k requires 0 <= k < |q.stages| =>
           seq(|group|, i requires 0 <= i < |group| => StageMatches(lib, q.stages[k], group[i]))))
  }

  ghost predicate InTimeOrder(group: seq<Event>) {
    forall i, j :: 0 <= i <= j < |group| ==> group[i].timestamp <= group[j].timestamp
  }

  ghost predicate TimeOrdered(times: seq<int>) {
    forall i, j :: 0 <= i <= j < |times| ==> times[i] <= times[j]
  }

  predicate Hit(h: Hunt, stage: nat, i: nat) {
    stage < |h.hits| && i < |h.times| && i < |h.hits[stage]| && h.hits[stage][i]
  }

  predicate Late(h: Hunt, start: int, i: nat) {
    i < |h.times| && h.within > 0 && h.times[i] - start > h.within
  }

  function TimeOf(h: Hunt, i: nat): (t: int) {
    if i < |h.times| then h.times[i] else 0
  }

  // ----- specification: chains -----

  /** An in-order match of the first |c| stages by strictly later events, all inside the
      window of the first. */
  ghost predicate Matched(h: Hunt, c: seq<nat>) {
    && 1 <= |c| <= |h.hits|
    && (forall k, m :: 0 <= k < m < |c| ==> c[k] < c[m])
    && (forall k :: 0 <= k < |c| ==> Hit(h, k, c[k]))
    && (forall k :: 0 <= k < |c| ==> !Late(h, TimeOf(h, c[0]), c[k]))
  }

  ghost predicate Chain(h: Hunt, c: seq<nat>) {
    Matched(h, c) && |c| == |h.hits|
  }

  /** No chain with the same start reaches any stage sooner. */
  ghost predicate Earliest(h: Hunt, c: seq<nat>) {
    forall d :: Chain(h, d) && SameStart(c, d) ==> NoLater(c, d)
  }

  ghost predicate NoLater(c: seq<nat>, d: seq<nat>) {
    forall k :: 0 <= k < |d| ==> k < |c| && c[k] <= d[k]
  }

  predicate SameStart(c: seq<nat>, d: seq<nat>) {
    c != [] && d != [] && c[0] == d[0]
  }

  /** Chains come out in the order they complete, and by start among those that complete
      on the same event. */
  ghost predicate Before(c: seq<nat>, d: seq<nat>) {
    c != [] && d != [] &&
    (c[|c| - 1] < d[|d| - 1] || (c[|c| - 1] == d[|d| - 1] && c[0] < d[0]))
  }

  /** Every reported chain is a chain, and the earliest from its start; every start with a
      chain is reported; no start is reported twice; and the order is by completion. */
  ghost predicate Exact(h: Hunt, done: seq<seq<nat>>) {
    && (forall c :: c in done ==> Chain(h, c) && Earliest(h, c))
    && (forall d :: Chain(h, d) ==> exists k :: 0 <= k < |done| && SameStart(done[k], d))
    && (forall a, b :: 0 <= a < b < |done| ==> Before(done[a], done[b]) && !SameStart(done[a], done[b]))
  }

  // ----- the fate of one start event -----

  datatype Partial = Partial(events: seq<nat>, stage: nat, start: int)

  datatype Fate = NotAStart | Open(p: Partial) | Done(c: seq<nat>) | Dropped

  function Advance(h: Hunt, p: Partial, e: nat): (f: Fate) {
    if Late(h, p.start, e) then Dropped
    else if !Hit(h, p.stage, e) then Open(p)
    else if p.stage + 1 == |h.hits| then Done(p.events + [e])
    else Open(Partial(p.events + [e], p.stage + 1, p.start))
  }

  /** What has become of start i after the events before n. */
  function FateOf(h: Hunt, i: nat, n: nat): (f: Fate)
    requires i < n
    decreases n
  {
    if n == i + 1 then
      if Hit(h, 0, i) then Open(Partial([i], 1, TimeOf(h, i))) else NotAStart
    else
      var f := FateOf(h, i, n - 1);
      if f.Open? then Advance(h, f.p, n - 1) else f
  }

  lemma MatchedSnoc(h: Hunt, c: seq<nat>, e: nat)
    requires Matched(h, c) && c[|c| - 1] < e && Hit(h, |c|, e) && !Late(h, TimeOf(h, c[0]), e)
    ensures Matched(h, c + [e])
  {
    var d := c + [e];
    assert forall k :: 0 <= k < |c| ==> d[k] == c[k];
    forall k, m | 0 <= k < m < |d| ensures d[k] < d[m] {
      assert k < |c| - 1 ==> c[k] < c[|c| - 1];
    }
  }

  ghost predicate SoundOpen(h: Hunt, i: nat, n: nat, p: Partial) {
    Matched(h, p.events) && p.events[0] == i && p.events[|p.events| - 1] < n &&
    p.stage == |p.events| < |h.hits| && p.start == TimeOf(h, i)
  }

  ghost predicate SoundDone(h: Hunt, i: nat, n: nat, c: seq<nat>) {
    Chain(h, c) && c[0] == i && c[|c| - 1] < n
  }

  ghost predicate SoundFate(h: Hunt, i: nat, n: nat, f: Fate) {
    (f.Open? ==> SoundOpen(h, i, n, f.p)) && (f.Done? ==> SoundDone(h, i, n, f.c))
  }

  lemma AdvanceIsSound(h: Hunt, i: nat, e: nat, p: Partial)
    requires e < |h.times| && SoundOpen(h, i, e, p)
    ensures SoundFate(h, i, e + 1, Advance(h, p, e))
  {
    if Hit(h, p.stage, e) && !Late(h, p.start, e) {
      MatchedSnoc(h, p.events, e);
    }
  }

  lemma FateStep(h: Hunt, i: nat, n: nat)
    requires i < n
    ensures FateOf(h, i, n + 1) == var f := FateOf(h, i, n); if f.Open? then Advance(h, f.p, n) else f
  {
  }

  lemma StartIsSound(h: Hunt, i: nat)
    requires i < |h.times| && |h.hits| >= 2
    ensures SoundFate(h, i, i + 1, FateOf(h, i, i + 1))
  {
  }

  lemma {:induction false} FateIsSound(h: Hunt, i: nat, n: nat)
    requires i < n <= |h.times| && |h.hits| >= 2
    ensures SoundFate(h, i, n, FateOf(h, i, n))
    decreases n
  {
    if n == i + 1 {
      StartIsSound(h, i);
    } else {
      FateIsSound(h, i, n - 1);
      FateStep(h, i, n - 1);
      StepIsSound(h, i, n - 1, FateOf(h, i, n - 1), FateOf(h, i, n));
    }
  }

  lemma StepIsSound(h: Hunt, i: nat, n: nat, f: Fate, g: Fate)
    requires n < |h.times| && SoundFate(h, i, n, f) && g == if f.Open? then Advance(h, f.p, n) else f
    ensures SoundFate(h, i, n + 1, g)
  {
    if f.Open? { AdvanceIsSound(h, i, n, f.p); }
  }

  function EventsOf(f: Fate): (c: seq<nat>) {
    match f
    case Open(p) => p.events
    case Done(c) => c
    case _ => []
  }

  /** f has matched at least the stages that d has matched before n, each no later. */
  ghost predicate KeepsUp(f: Fate, d: seq<nat>, n: nat) {
    forall k :: 0 <= k < |d| && d[k] < n ==> k < |EventsOf(f)| && EventsOf(f)[k] <= d[k]
  }

  /** A partial that keeps up with a chain that is still incomplete is not dropped. */
  lemma NotDropped(h: Hunt, p: Partial, e: nat, d: seq<nat>)
    requires e < |h.times| && TimeOrdered(h.times) && Chain(h, d)
    requires p.start == TimeOf(h, d[0]) && d[|d| - 1] >= e
    ensures !Late(h, p.start, e)
  {
    var last := d[|d| - 1];
    assert Hit(h, |d| - 1, last);
    assert h.times[e] <= h.times[last];
  }

  /** Event e is new to d at most at the stage that c waits for. */
  lemma AtMostTheNextStage(c: seq<nat>, d: seq<nat>, e: nat)
    requires forall k, m :: 0 <= k < m < |d| ==> d[k] < d[m]
    requires KeepsUp(Done(c), d, e)
    ensures forall k :: 0 <= k < |d| && d[k] == e ==> k <= |c|
  {
    assert |c| < |d| ==> d[|c|] >= e;
  }

  lemma KeepsUpStep(h: Hunt, p: Partial, e: nat, d: seq<nat>)
    requires Chain(h, d) && KeepsUp(Open(p), d, e)
    requires p.stage == |p.events| < |h.hits|
    requires forall k :: 0 <= k < |p.events| ==> p.events[k] < e
    requires !Late(h, p.start, e)
    ensures KeepsUp(Advance(h, p, e), d, e + 1)
  {
    AtMostTheNextStage(p.events, d, e);
    var s := |p.events|;
    assert Hit(h, s, d[s]);
    if Hit(h, s, e) {
      assert EventsOf(Advance(h, p, e)) == p.events + [e];
    } else {
      assert EventsOf(Advance(h, p, e)) == p.events;
    }
  }

  lemma StartIsOpen(h: Hunt, i: nat, d: seq<nat>)
    requires Chain(h, d) && d[0] == i
    ensures KeepsUp(FateOf(h, i, i + 1), d, i + 1)
  {
    assert Hit(h, 0, d[0]);
    assert forall k :: 0 < k < |d| ==> d[0] < d[k];
  }

  lemma OpenIsBehind(p: Partial, d: seq<nat>, e: nat)
    requires |p.events| < |d| && KeepsUp(Open(p), d, e)
    ensures d[|d| - 1] >= e
  {
  }

  lemma DoneKeepsUp(c: seq<nat>, d: seq<nat>, e: nat)
    requires |c| == |d| && KeepsUp(Done(c), d, e) && forall k :: 0 <= k < |c| ==> c[k] < e
    ensures KeepsUp(Done(c), d, e + 1)
  {
  }

  lemma Below(h: Hunt, c: seq<nat>, e: nat)
    requires Matched(h, c) && c[|c| - 1] < e
    ensures forall k :: 0 <= k < |c| ==> c[k] < e
  {
  }

  lemma OpenStep(h: Hunt, i: nat, e: nat, p: Partial, d: seq<nat>)
    requires e < |h.times| && TimeOrdered(h.times) && Chain(h, d) && d[0] == i
    requires SoundOpen(h, i, e, p) && KeepsUp(Open(p), d, e)
    ensures KeepsUp(Advance(h, p, e), d, e + 1)
  {
    OpenIsBehind(p, d, e);
    NotDropped(h, p, e, d);
    Below(h, p.events, e);
    KeepsUpStep(h, p, e, d);
  }

  lemma DoneStep(h: Hunt, i: nat, e: nat, c: seq<nat>, d: seq<nat>)
    requires Chain(h, d) && SoundDone(h, i, e, c) && KeepsUp(Done(c), d, e)
    ensures KeepsUp(Done(c), d, e + 1)
  {
    Below(h, c, e);
    DoneKeepsUp(c, d, e);
  }

  lemma KeepsUpNext(h: Hunt, i: nat, n: nat, d: seq<nat>)
    requires i < n < |h.times| && |h.hits| >= 2 && TimeOrdered(h.times)
    requires Chain(h, d) && d[0] == i && KeepsUp(FateOf(h, i, n), d, n)
    ensures KeepsUp(FateOf(h, i, n + 1), d, n + 1)
  {
    FateIsSound(h, i, n);
    var f := FateOf(h, i, n);
    if f.Open? {
      OpenStep(h, i, n, f.p, d);
    } else if f.Done? {
      DoneStep(h, i, n, f.c, d);
    }
  }

  /** Greedy loses no start: while a chain from i exists, the fate of i keeps up with it. */
  lemma {:induction false} GreedyKeepsUp(h: Hunt, i: nat, n: nat, d: seq<nat>)
    requires i < n <= |h.times| && |h.hits| >= 2 && TimeOrdered(h.times)
    requires Chain(h, d) && d[0] == i
    ensures KeepsUp(FateOf(h, i, n), d, n)
    decreases n
  {
    if n == i + 1 {
      StartIsOpen(h, i, d);
    } else {
      GreedyKeepsUp(h, i, n - 1, d);
      KeepsUpNext(h, i, n - 1, d);
    }
  }

  // ----- the list of open partials and of completed chains -----

  function OneIfOpen(f: Fate): (ps: seq<Partial>) {
    if f.Open? then [f.p] else []
  }

  function OneIfDone(f: Fate): (cs: seq<seq<nat>>) {
    if f.Done? then [f.c] else []
  }

  /** What one event does to the first m open partials: those kept open, and those
      completed. */
  function Kept(h: Hunt, ps: seq<Partial>, m: nat, e: nat): (r: seq<Partial>)
    requires m <= |ps|
    ensures |r| <= m
  {
    if m == 0 then [] else Kept(h, ps, m - 1, e) + OneIfOpen(Advance(h, ps[m - 1], e))
  }

  function Completed(h: Hunt, ps: seq<Partial>, m: nat, e: nat): (r: seq<seq<nat>>)
    requires m <= |ps|
  {
    if m == 0 then [] else Completed(h, ps, m - 1, e) + OneIfDone(Advance(h, ps[m - 1], e))
  }

  lemma {:induction false} PrefixOnly(h: Hunt, ps: seq<Partial>, p: Partial, m: nat, e: nat)
    requires m <= |ps|
    ensures Kept(h, ps + [p], m, e) == Kept(h, ps, m, e)
    ensures Completed(h, ps + [p], m, e) == Completed(h, ps, m, e)
  {
    if m > 0 { PrefixOnly(h, ps, p, m - 1, e); }
  }

  lemma OneMore(h: Hunt, ps: seq<Partial>, p: Partial, e: nat)
    ensures Kept(h, ps + [p], |ps| + 1, e) == Kept(h, ps, |ps|, e) + OneIfOpen(Advance(h, p, e))
    ensures Completed(h, ps + [p], |ps| + 1, e) == Completed(h, ps, |ps|, e) + OneIfDone(Advance(h, p, e))
  {
    PrefixOnly(h, ps, p, |ps|, e);
  }

  /** The open partials of the starts before i, after the events before n. */
  ghost function OpenList(h: Hunt, i: nat, n: nat): (ps: seq<Partial>)
    requires i <= n
    decreases i
  {
    if i == 0 then [] else OpenList(h, i - 1, n) + OneIfOpen(FateOf(h, i - 1, n))
  }

  /** The chains of the starts before i that complete on event n. */
  ghost function CompletedBy(h: Hunt, i: nat, n: nat): (cs: seq<seq<nat>>)
    requires i <= n
    decreases i
  {
    if i == 0 then []
    else CompletedBy(h, i - 1, n) + (if FateOf(h, i - 1, n).Open? then OneIfDone(FateOf(h, i - 1, n + 1)) else [])
  }

  ghost function DoneList(h: Hunt, n: nat): (cs: seq<seq<nat>>) {
    if n == 0 then [] else DoneList(h, n - 1) + CompletedBy(h, n - 1, n - 1)
  }

  /** One more start, with its fate before and after event n. */
  lemma OneFate(h: Hunt, ps: seq<Partial>, f: Fate, g: Fate, n: nat)
    requires g == if f.Open? then Advance(h, f.p, n) else f
    ensures
      var all := ps + OneIfOpen(f);
      && Kept(h, all, |all|, n) == Kept(h, ps, |ps|, n) + OneIfOpen(g)
      && Completed(h, all, |all|, n) == Completed(h, ps, |ps|, n) + (if f.Open? then OneIfDone(g) else [])
  {
    if f.Open? { OneMore(h, ps, f.p, n); } else { assert ps + [] == ps; }
  }

  lemma {:induction false} OneStep(h: Hunt, i: nat, n: nat)
    requires i <= n
    ensures OpenList(h, i, n + 1) == Kept(h, OpenList(h, i, n), |OpenList(h, i, n)|, n)
    ensures CompletedBy(h, i, n) == Completed(h, OpenList(h, i, n), |OpenList(h, i, n)|, n)
    decreases i
  {
    if i > 0 {
      OneStep(h, i - 1, n);
      FateStep(h, i - 1, n);
      OneFate(h, OpenList(h, i - 1, n), FateOf(h, i - 1, n), FateOf(h, i - 1, n + 1), n);
    }
  }

  /** The two lists after one more event, which may open a partial of its own. */
  lemma NextEvent(h: Hunt, e: nat)
    ensures OpenList(h, e + 1, e + 1) ==
            Kept(h, OpenList(h, e, e), |OpenList(h, e, e)|, e) +
            (if Hit(h, 0, e) then [Partial([e], 1, TimeOf(h, e))] else [])
    ensures DoneList(h, e + 1) == DoneList(h, e) + Completed(h, OpenList(h, e, e), |OpenList(h, e, e)|, e)
  {
    OneStep(h, e, e);
  }

  // ----- the matcher -----

  lemma StepLists(h: Hunt, ps: seq<Partial>, i: nat, e: nat)
    requires i < |ps|
    ensures Kept(h, ps, i + 1, e) == Kept(h, ps, i, e) + OneIfOpen(Advance(h, ps[i], e))
    ensures Completed(h, ps, i + 1, e) == Completed(h, ps, i, e) + OneIfDone(Advance(h, ps[i], e))
  {
  }

  /** The source's advancePartials: one pass that overwrites the open list in place,
      reading position i after writing only positions up to i. */
  method AdvancePartials(h: Hunt, open: array<Partial>, n: nat, e: nat)
    returns (m: nat, completed: seq<seq<nat>>)
    requires n <= open.Length
    modifies open
    ensures m <= n && open[..m] == Kept(h, old(open[..n]), n, e)
    ensures completed == Completed(h, old(open[..n]), n, e)
  {
    ghost var ps := open[..n];
    m, completed := 0, [];
    for i := 0 to n
      invariant m <= i && open[..m] == Kept(h, ps, i, e) && completed == Completed(h, ps, i, e)
      invariant forall k :: i <= k < n ==> open[k] == ps[k]
    {
      var f := Advance(h, open[i], e);
      StepLists(h, ps, i, e);
      if f.Done? {
        completed := completed + [f.c];
      } else if f.Open? {
        m := AppendPartial(open, m, f.p);
      }
    }
  }

  /** open = append(open, p), over the array the list already occupies. */
  method AppendPartial(open: array<Partial>, n: nat, p: Partial) returns (m: nat)
    requires n < open.Length
    modifies open
    ensures m == n + 1 && open[..m] == old(open[..n]) + [p]
    ensures forall k :: m <= k < open.Length ==> open[k] == old(open[k])
  {
    open[n] := p;
    m := n + 1;
  }

  /** The chains the matcher reports, in order. */
  method MatchSequences(h: Hunt) returns (done: seq<seq<nat>>)
    requires |h.hits| >= 2 && TimeOrdered(h.times)
    ensures Exact(h, done)
  {
    var open := new Partial[|h.times|](_ => Partial([], 0, 0));
    var n: nat := 0;
    done := [];
    for e := 0 to |h.times|
      invariant n <= e
      invariant open[..n] == OpenList(h, e, e)
      invariant done == DoneList(h, e)
    {
      var completed;
      n, completed := AdvancePartials(h, open, n, e);
      done := done + completed;
      NextEvent(h, e);
      if Hit(h, 0, e) {
        n := AppendPartial(open, n, Partial([e], 1, TimeOf(h, e)));
      }
    }
    DoneListIsExact(h);
  }

  // ----- exactness -----

  /** A completed start stays completed, and a completion is recorded when it happens. */
  lemma {:induction false} CompletedByMembers(h: Hunt, i: nat, n: nat, c: seq<nat>)
    requires i <= n < |h.times| && |h.hits| >= 2
    ensures c in CompletedBy(h, i, n) ==>
              Chain(h, c) && c[0] < i && c[|c| - 1] == n && FateOf(h, c[0], n + 1) == Done(c)
    ensures c != [] && c[0] < i && FateOf(h, c[0], n).Open? && FateOf(h, c[0], n + 1) == Done(c) ==>
              c in CompletedBy(h, i, n)
    decreases i
  {
    if i > 0 {
      CompletedByMembers(h, i - 1, n, c);
      FateIsSound(h, i - 1, n);
      FateIsSound(h, i - 1, n + 1);
    }
  }

  lemma {:induction false} CompletedByOrdered(h: Hunt, i: nat, n: nat)
    requires i <= n < |h.times| && |h.hits| >= 2
    ensures forall a, b :: 0 <= a < b < |CompletedBy(h, i, n)| ==>
            Before(CompletedBy(h, i, n)[a], CompletedBy(h, i, n)[b])
    decreases i
  {
    if i > 0 {
      CompletedByOrdered(h, i - 1, n);
      var cs, all := CompletedBy(h, i - 1, n), CompletedBy(h, i, n);
      forall a, b | 0 <= a < b < |all| ensures Before(all[a], all[b]) {
        CompletedByMembers(h, i, n, all[b]);
        CompletedByMembers(h, i - 1, n, all[a]);
        assert a < |cs| && all[a] == cs[a];
        if b == |cs| { FateIsSound(h, i - 1, n + 1); }
      }
    }
  }

  lemma {:induction false} DoneListMembers(h: Hunt, n: nat, c: seq<nat>)
    requires n <= |h.times| && |h.hits| >= 2
    ensures c in DoneList(h, n) ==> Chain(h, c) && c[|c| - 1] < n && FateOf(h, c[0], n) == Done(c)
    ensures c != [] && c[0] < n && FateOf(h, c[0], n) == Done(c) ==> c in DoneList(h, n)
    decreases n
  {
    if n > 0 {
      DoneListMembers(h, n - 1, c);
      CompletedByMembers(h, n - 1, n - 1, c);
    }
  }

  lemma {:induction false} DoneListOrdered(h: Hunt, n: nat)
    requires n <= |h.times| && |h.hits| >= 2
    ensures forall a, b :: 0 <= a < b < |DoneList(h, n)| ==> Before(DoneList(h, n)[a], DoneList(h, n)[b])
    decreases n
  {
    if n > 0 {
      DoneListOrdered(h, n - 1);
      CompletedByOrdered(h, n - 1, n - 1);
      var old_, new_, all := DoneList(h, n - 1), CompletedBy(h, n - 1, n - 1), DoneList(h, n);
      forall a, b | 0 <= a < b < |all| ensures Before(all[a], all[b]) {
        if a < |old_| <= b {
          assert all[a] in old_ && all[b] in new_;
          DoneListMembers(h, n - 1, all[a]);
          CompletedByMembers(h, n - 1, n - 1, all[b]);
        }
      }
    }
  }

  /** The matcher's output is sound, greedy-earliest, complete and without repeats. */
  lemma DoneListIsExact(h: Hunt)
    requires |h.hits| >= 2 && TimeOrdered(h.times)
    ensures Exact(h, DoneList(h, |h.times|))
  {
    var n := |h.times|;
    var done := DoneList(h, n);
    forall c | c in done ensures Chain(h, c) && Earliest(h, c) {
      DoneListMembers(h, n, c);
      forall d | Chain(h, d) && SameStart(c, d) ensures NoLater(c, d) {
        GreedyKeepsUp(h, c[0], n, d);
      }
    }
    forall d | Chain(h, d) ensures exists k :: 0 <= k < |done| && SameStart(done[k], d) {
      GreedyKeepsUp(h, d[0], n, d);
      FateIsSound(h, d[0], n);
      assert Hit(h, |d| - 1, d[|d| - 1]);
      assert FateOf(h, d[0], n).Done?;
      var c := FateOf(h, d[0], n).c;
      DoneListMembers(h, n, c);
      var k :| 0 <= k < |done| && done[k] == c;
    }
    DoneListOrdered(h, n);
    forall a, b | 0 <= a < b < |done| ensures !SameStart(done[a], done[b]) {
      DoneListMembers(h, n, done[a]);
      DoneListMembers(h, n, done[b]);
      assert Before(done[a], done[b]);
    }
  }
}
