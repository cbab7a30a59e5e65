/** Sequence queries over a whole answer: the groups, the chains found in each, and what they say
    of the query in its own words. */
module HuntGroups {
  import opened Text
  import opened Model
  import opened Stdlib
  import opened Arql
  import opened HuntSequence

  // ----- what a sequence query asks -----

  /** Strictly increasing positions in a list of events. */
  ghost predicate Positions(events: seq<Event>, p: seq<nat>) {
    && (forall k :: 0 <= k < |p| ==> p[k] < |events|)
    && (forall k, m :: 0 <= k < m < |p| ==> p[k] < p[m])
  }

  /** Without a `by` field all events belong together; with one, those that carry the same value. */
  predicate Together(q: Query, e: Event, f: Event)
    requires q.Sequence?
  {
    q.groupField == NoField || (Field(e, q.groupField).Some? && Field(e, q.groupField) == Field(f, q.groupField))
  }

  /** One event for each stage, in order, belonging together, and within the window of the first;
      a window of zero is none. */
  ghost predicate Choice(lib: Lib, q: Query, events: seq<Event>, p: seq<nat>)
    requires q.Sequence?
  {
    && |p| == |q.stages| && Positions(events, p)
    && forall k :: 0 <= k < |p| ==>
         && StageMatches(lib, q.stages[k], events[p[k]])
         && Together(q, events[p[0]], events[p[k]])
         && (q.within > 0 ==> events[p[k]].timestamp - events[p[0]].timestamp <= q.within)
  }

  /** The choice p starts as r does, and is nowhere later. */
  ghost predicate AsEarly(p: seq<nat>, r: seq<nat>) {
    p != [] && r != [] && p[0] == r[0] && |p| == |r| && forall k :: 0 <= k < |p| ==> p[k] <= r[k]
  }

  /** The one completes before the other, or with it and from an earlier start. */
  ghost predicate Sooner(p: seq<nat>, r: seq<nat>) {
    p != [] && r != [] &&
    (p[|p| - 1] < r[|r| - 1] || (p[|p| - 1] == r[|r| - 1] && p[0] < r[0]))
  }

  /** Different starts; and, if they belong together, in order. */
  ghost predicate InOrder(q: Query, events: seq<Event>, p: seq<nat>, r: seq<nat>)
    requires q.Sequence?
  {
    && p != [] && r != [] && p[0] < |events| && r[0] < |events| && p[0] != r[0]
    && (Together(q, events[p[0]], events[r[0]]) ==> Sooner(p, r))
  }

  /** If the outer two belong together, so does the one between them. */
  ghost predicate Between(q: Query, events: seq<Event>, o: seq<nat>, p: seq<nat>, r: seq<nat>)
    requires q.Sequence?
  {
    && o != [] && p != [] && r != [] && o[0] < |events| && p[0] < |events| && r[0] < |events|
    && (Together(q, events[o[0]], events[r[0]]) ==> Together(q, events[o[0]], events[p[0]]))
  }

  /** Listed once for each start, by completion among those that belong together, which come
      one after the other. */
  ghost predicate Listed(q: Query, events: seq<Event>, at: seq<seq<nat>>)
    requires q.Sequence?
  {
    && (forall i, j :: 0 <= i < j < |at| ==> InOrder(q, events, at[i], at[j]))
    && (forall i, j, k :: 0 <= i < j < k < |at| ==> Between(q, events, at[i], at[j], at[k]))
  }

  /** Only choices, and for every choice one that starts with it and is nowhere later. */
  ghost predicate Answers(lib: Lib, q: Query, events: seq<Event>, at: seq<seq<nat>>)
    requires q.Sequence?
  {
    && (forall i :: 0 <= i < |at| ==> Choice(lib, q, events, at[i]))
    && (forall r :: Choice(lib, q, events, r) ==> Covered(at, r))
    && Listed(q, events, at)
  }

  ghost predicate Covered(at: seq<seq<nat>>, r: seq<nat>) {
    exists i :: 0 <= i < |at| && AsEarly(at[i], r)
  }

  /** The events at these positions. */
  ghost predicate Shows(events: seq<Event>, at: seq<seq<nat>>, shown: seq<seq<Event>>) {
    |shown| == |at| && forall i :: 0 <= i < |at| ==> ShowsOne(events, at[i], shown[i])
  }

  ghost predicate ShowsOne(events: seq<Event>, p: seq<nat>, s: seq<Event>) {
    |s| == |p| && forall k :: 0 <= k < |p| ==> p[k] < |events| && s[k] == events[p[k]]
  }

  // ----- groups (internal/hunt/hunt.go, groupBy and runSequence) -----

  /** The group an event belongs to; an event without the `by` field belongs to none. */
  function GroupKey(q: Query, e: Event): (k: Option<string>)
    requires q.Sequence?
  {
    if q.groupField == NoField then Some("")
    else if Field(e, q.groupField).None? then None
    else Some(ToString(Field(e, q.groupField).value))
  }

  /** The events of one group, in their original order. */
  ghost function Members(q: Query, events: seq<Event>, key: string): (g: seq<Event>)
    requires q.Sequence?
  {
    if events == [] then []
    else
      var init, last := events[..|events| - 1], events[|events| - 1];
      Members(q, init, key) + (if GroupKey(q, last) == Some(key) then [last] else [])
  }

  lemma {:induction false} MembersTimeOrdered(q: Query, events: seq<Event>, key: string)
    requires q.Sequence? && InTimeOrder(events)
    ensures InTimeOrder(Members(q, events, key))
    ensures forall e :: e in Members(q, events, key) ==> e in events && GroupKey(q, e) == Some(key)
  {
    if events != [] {
      var init, last := events[..|events| - 1], events[|events| - 1];
      MembersTimeOrdered(q, init, key);
      assert forall e :: e in init ==> e.timestamp <= last.timestamp;
      SnocTimeOrdered(Members(q, init, key), last);
    }
  }

  lemma SnocTimeOrdered(g: seq<Event>, last: Event)
    requires InTimeOrder(g) && forall e :: e in g ==> e.timestamp <= last.timestamp
    ensures InTimeOrder(g + [last])
  {
  }

  ghost predicate Grouped(q: Query, events: seq<Event>, groups: map<string, seq<Event>>)
    requires q.Sequence?
  {
    forall k :: (if k in groups then groups[k] else []) == Members(q, events, k)
  }

  method GroupBy(q: Query, events: seq<Event>) returns (groups: map<string, seq<Event>>)
    requires q.Sequence?
    ensures Grouped(q, events, groups)
  {
    groups := map[];
    for i := 0 to |events|
      invariant Grouped(q, events[..i], groups)
    {
      assert events[..i + 1][..i] == events[..i];
      var key := GroupKey(q, events[i]);
      if key.Some? {
        var k := key.value;
        groups := groups[k := (if k in groups then groups[k] else []) + [events[i]]];
      }
    }
    assert events[..|events|] == events;
  }

  // ----- groups are the events that belong together -----

  lemma FormatIntInjective(m: int, n: int)
    requires FormatInt(m) == FormatInt(n)
    ensures m == n
  {
    assert FormatInt(m)[0] == '-' <==> m < 0;
    assert FormatInt(n)[0] == '-' <==> n < 0;
    if m < 0 {
      assert FormatInt(m)[1..] == FormatNat(-m) && FormatInt(n)[1..] == FormatNat(-n);
      FormatNatInjective(-m, -n);
    } else {
      FormatNatInjective(m, n);
    }
  }

  /** Values of one field with one text are equal. */
  lemma TextIdentifies(v: FieldValue, w: FieldValue, t: FieldType)
    requires Inhabits(v, t) && Inhabits(w, t) && ToString(v) == ToString(w)
    ensures v == w
  {
    if t.IntField? { FormatIntInjective(v.n, w.n); }
  }

  lemma SameKey(q: Query, e: Event, f: Event)
    requires q.Sequence?
    ensures Together(q, e, f) <==> GroupKey(q, e).Some? && GroupKey(q, e) == GroupKey(q, f)
  {
    var path := q.groupField;
    if path != NoField && Field(e, path).Some? && Field(f, path).Some? {
      FieldRespectsSchema(e, path);
      FieldRespectsSchema(f, path);
      if GroupKey(q, e) == GroupKey(q, f) {
        TextIdentifies(Field(e, path).value, Field(f, path).value, Schema(path).value);
      }
    }
  }

  /** Where the members of a group are. */
  ghost function Places(q: Query, events: seq<Event>, key: string): (p: seq<nat>)
    requires q.Sequence?
  {
    if events == [] then []
    else
      var n := |events| - 1;
      Places(q, events[..n], key) + (if GroupKey(q, events[n]) == Some(key) then [n] else [])
  }

  lemma {:induction false} PlacesShow(q: Query, events: seq<Event>, key: string)
    requires q.Sequence?
    ensures |Places(q, events, key)| == |Members(q, events, key)| && Positions(events, Places(q, events, key))
    ensures ShowsOne(events, Places(q, events, key), Members(q, events, key))
  {
    if events != [] {
      var n := |events| - 1;
      PlacesShow(q, events[..n], key);
      var p := Places(q, events[..n], key);
      assert forall k :: 0 <= k < |p| ==> events[p[k]] == events[..n][p[k]];
    }
  }

  lemma {:induction false} PlacesAre(q: Query, events: seq<Event>, key: string, i: nat)
    requires q.Sequence?
    ensures i in Places(q, events, key) <==> i < |events| && GroupKey(q, events[i]) == Some(key)
  {
    if events != [] {
      var n := |events| - 1;
      var init := events[..n];
      PlacesAre(q, init, key, i);
      assert i < n ==> init[i] == events[i];
      var more := if GroupKey(q, events[n]) == Some(key) then [n] else [];
      assert Places(q, events, key) == Places(q, init, key) + more;
      assert i in more <==> i == n && GroupKey(q, events[n]) == Some(key);
    }
  }

  lemma PlacesOfMembers(q: Query, events: seq<Event>, key: string)
    requires q.Sequence?
    ensures |Places(q, events, key)| == |Members(q, events, key)| && Positions(events, Places(q, events, key))
    ensures ShowsOne(events, Places(q, events, key), Members(q, events, key))
    ensures forall i: nat :: i in Places(q, events, key) <==> i < |events| && GroupKey(q, events[i]) == Some(key)
  {
    PlacesShow(q, events, key);
    forall i: nat ensures i in Places(q, events, key) <==> i < |events| && GroupKey(q, events[i]) == Some(key) {
      PlacesAre(q, events, key, i);
    }
  }

  ghost function Lift(places: seq<nat>, c: seq<nat>): (p: seq<nat>)
    requires forall k :: 0 <= k < |c| ==> c[k] < |places|
    ensures |p| == |c| && forall k :: 0 <= k < |c| ==> p[k] == places[c[k]]
  {
    seq(|c|, k requires 0 <= k < |c| => places[c[k]])
  }

  ghost predicate InGroup(group: seq<Event>, c: seq<nat>) {
    forall k :: 0 <= k < |c| ==> c[k] < |group|
  }

  lemma ChainInGroup(lib: Lib, q: Query, group: seq<Event>, c: seq<nat>)
    requires q.Sequence? && Chain(HuntOf(lib, q, group), c)
    ensures InGroup(group, c)
  {
    var h := HuntOf(lib, q, group);
    forall k | 0 <= k < |c| ensures c[k] < |group| { assert Hit(h, k, c[k]); }
  }

  // ----- chains of a group are choices -----

  /** The same over one group, whose events belong together. */
  ghost predicate Fits(lib: Lib, q: Query, group: seq<Event>, c: seq<nat>)
    requires q.Sequence?
  {
    && |c| == |q.stages| && Positions(group, c)
    && forall k :: 0 <= k < |c| ==>
         && StageMatches(lib, q.stages[k], group[c[k]])
         && (q.within > 0 ==> group[c[k]].timestamp - group[c[0]].timestamp <= q.within)
  }

  lemma ChainFits(lib: Lib, q: Query, group: seq<Event>, c: seq<nat>)
    requires q.Sequence? && |q.stages| > 0
    ensures Chain(HuntOf(lib, q, group), c) <==> Fits(lib, q, group, c)
  {
    var h := HuntOf(lib, q, group);
    if Chain(h, c) {
      ChainInGroup(lib, q, group, c);
      forall k | 0 <= k < |c|
        ensures StageMatches(lib, q.stages[k], group[c[k]])
        ensures q.within > 0 ==> group[c[k]].timestamp - group[c[0]].timestamp <= q.within
      {
        assert Hit(h, k, c[k]) && !Late(h, TimeOf(h, c[0]), c[k]);
      }
    }
    if Fits(lib, q, group, c) {
      forall k | 0 <= k < |c| ensures Hit(h, k, c[k]) && !Late(h, TimeOf(h, c[0]), c[k]) {}
    }
  }

  lemma LiftIsChoice(lib: Lib, q: Query, events: seq<Event>, key: string, c: seq<nat>)
    requires q.Sequence? && |q.stages| > 0 && Fits(lib, q, Members(q, events, key), c)
    requires |Places(q, events, key)| == |Members(q, events, key)|
    ensures Choice(lib, q, events, Lift(Places(q, events, key), c))
    ensures GroupKey(q, events[Lift(Places(q, events, key), c)[0]]) == Some(key)
  {
    var places := Places(q, events, key);
    PlacesOfMembers(q, events, key);
    var p := Lift(places, c);
    forall k | 0 <= k < |p| ensures GroupKey(q, events[p[k]]) == Some(key) { assert p[k] in places; }
    forall k | 0 <= k < |p| ensures Together(q, events[p[0]], events[p[k]]) {
      SameKey(q, events[p[0]], events[p[k]]);
    }
  }

  ghost function IndexOf(xs: seq<nat>, x: nat): (i: nat)
    requires x in xs
    ensures i < |xs| && xs[i] == x
  {
    var i :| 0 <= i < |xs| && xs[i] == x;
    i
  }

  /** A choice is the lift of one in its group. */
  lemma ChoiceIsLifted(lib: Lib, q: Query, events: seq<Event>, r: seq<nat>, key: string) returns (c: seq<nat>)
    requires q.Sequence? && |q.stages| > 0 && Choice(lib, q, events, r) && GroupKey(q, events[r[0]]) == Some(key)
    requires |Places(q, events, key)| == |Members(q, events, key)|
    ensures Fits(lib, q, Members(q, events, key), c) && r == Lift(Places(q, events, key), c)
  {
    var places, group := Places(q, events, key), Members(q, events, key);
    PlacesOfMembers(q, events, key);
    forall k | 0 <= k < |r| ensures r[k] in places {
      SameKey(q, events[r[0]], events[r[k]]);
    }
    c := seq(|r|, k requires 0 <= k < |r| => IndexOf(places, r[k]));
    forall k, m | 0 <= k < m < |c| ensures c[k] < c[m] {
      assert places[c[k]] == r[k] < r[m] == places[c[m]];
    }
  }

  // ----- from the chains of one group to the answer -----

  /** The chains found in a group, where they are. */
  ghost function LiftAll(places: seq<nat>, chains: seq<seq<nat>>): (at: seq<seq<nat>>)
    requires forall i, k :: 0 <= i < |chains| && 0 <= k < |chains[i]| ==> chains[i][k] < |places|
    ensures |at| == |chains| && forall i :: 0 <= i < |chains| ==> at[i] == Lift(places, chains[i])
  {
    seq(|chains|, i requires 0 <= i < |chains| => Lift(places, chains[i]))
  }

  /** The events of the groups of these keys have been answered for. */
  ghost predicate AnswersFor(lib: Lib, q: Query, events: seq<Event>, keys: set<string>, at: seq<seq<nat>>)
    requires q.Sequence?
  {
    && (forall i :: 0 <= i < |at| ==> at[i] != [] && Choice(lib, q, events, at[i]) && KeyIn(q, events, at[i], keys))
    && (forall r :: r != [] && Choice(lib, q, events, r) && KeyIn(q, events, r, keys) ==> Covered(at, r))
    && Listed(q, events, at)
  }

  ghost predicate KeyIn(q: Query, events: seq<Event>, p: seq<nat>, keys: set<string>)
    requires q.Sequence?
  {
    p != [] && p[0] < |events| && GroupKey(q, events[p[0]]).Some? && GroupKey(q, events[p[0]]).value in keys
  }

  /** The chains of a group, at the places of its members. */
  ghost predicate Placed(q: Query, events: seq<Event>, key: string, chains: seq<seq<nat>>, at: seq<seq<nat>>)
    requires q.Sequence?
  {
    |at| == |chains| && forall i :: 0 <= i < |chains| ==> PlacedOne(q, events, key, chains[i], at[i])
  }

  ghost predicate PlacedOne(q: Query, events: seq<Event>, key: string, c: seq<nat>, p: seq<nat>)
    requires q.Sequence?
  {
    InGroup(Members(q, events, key), c) && (PlacesOfMembers(q, events, key); p == Lift(Places(q, events, key), c))
  }

  lemma PlacedChoice(lib: Lib, q: Query, events: seq<Event>, key: string, c: seq<nat>, p: seq<nat>)
    requires q.Sequence? && |q.stages| > 0 && Chain(HuntOf(lib, q, Members(q, events, key)), c)
    requires PlacedOne(q, events, key, c, p)
    ensures p != [] && Choice(lib, q, events, p) && KeyIn(q, events, p, {key})
  {
    PlacesOfMembers(q, events, key);
    ChainFits(lib, q, Members(q, events, key), c);
    LiftIsChoice(lib, q, events, key, c);
  }

  lemma PlacedEarly(q: Query, events: seq<Event>, key: string, c: seq<nat>, p: seq<nat>, d: seq<nat>, r: seq<nat>)
    requires q.Sequence? && PlacedOne(q, events, key, c, p) && PlacedOne(q, events, key, d, r)
    requires SameStart(c, d) && NoLater(c, d) && |c| == |d|
    ensures AsEarly(p, r)
  {
    PlacesOfMembers(q, events, key);
    forall k | 0 <= k < |c| ensures p[k] <= r[k] { assert c[k] <= d[k]; }
  }

  lemma PlacedInOrder(q: Query, events: seq<Event>, key: string, c: seq<nat>, p: seq<nat>, d: seq<nat>, r: seq<nat>)
    requires q.Sequence? && PlacedOne(q, events, key, c, p) && PlacedOne(q, events, key, d, r)
    requires Before(c, d) && !SameStart(c, d)
    ensures InOrder(q, events, p, r)
  {
    PlacesOfMembers(q, events, key);
  }

  lemma ChoiceCovered(
    lib: Lib, q: Query, events: seq<Event>, key: string, chains: seq<seq<nat>>, at: seq<seq<nat>>, r: seq<nat>)
    requires q.Sequence? && |q.stages| > 0 && Exact(HuntOf(lib, q, Members(q, events, key)), chains)
    requires Placed(q, events, key, chains, at) && Choice(lib, q, events, r) && KeyIn(q, events, r, {key})
    ensures Covered(at, r)
  {
    var h := HuntOf(lib, q, Members(q, events, key));
    PlacesOfMembers(q, events, key);
    var d := ChoiceIsLifted(lib, q, events, r, key);
    ChainFits(lib, q, Members(q, events, key), d);
    var i :| 0 <= i < |chains| && SameStart(chains[i], d);
    assert chains[i] in chains && Chain(h, chains[i]) && Earliest(h, chains[i]);
    PlacedEarly(q, events, key, chains[i], at[i], d, r);
  }

  lemma GroupListed(q: Query, events: seq<Event>, key: string, at: seq<seq<nat>>)
    requires q.Sequence? && forall i :: 0 <= i < |at| ==> KeyIn(q, events, at[i], {key})
    requires forall i, j :: 0 <= i < j < |at| ==> InOrder(q, events, at[i], at[j])
    ensures Listed(q, events, at)
  {
    forall i, j, k | 0 <= i < j < k < |at| ensures Between(q, events, at[i], at[j], at[k]) {
      assert KeyIn(q, events, at[i], {key}) && KeyIn(q, events, at[j], {key}) && KeyIn(q, events, at[k], {key});
      SameKey(q, events[at[i][0]], events[at[j][0]]);
    }
  }

  lemma ChainsInOrder(
    lib: Lib, q: Query, events: seq<Event>, key: string, chains: seq<seq<nat>>, at: seq<seq<nat>>, i: nat, j: nat)
    requires q.Sequence? && Exact(HuntOf(lib, q, Members(q, events, key)), chains)
    requires Placed(q, events, key, chains, at) && i < j < |at|
    ensures InOrder(q, events, at[i], at[j])
  {
    PlacedInOrder(q, events, key, chains[i], at[i], chains[j], at[j]);
  }

  lemma ChainsAreChoices(
    lib: Lib, q: Query, events: seq<Event>, key: string, chains: seq<seq<nat>>, at: seq<seq<nat>>, i: nat)
    requires q.Sequence? && |q.stages| > 0 && Exact(HuntOf(lib, q, Members(q, events, key)), chains)
    requires Placed(q, events, key, chains, at) && i < |at|
    ensures at[i] != [] && Choice(lib, q, events, at[i]) && KeyIn(q, events, at[i], {key})
  {
    assert chains[i] in chains;
    PlacedChoice(lib, q, events, key, chains[i], at[i]);
  }

  /** What Exact says of one group's chains, at their places. */
  lemma GroupAnswered(
    lib: Lib, q: Query, events: seq<Event>, key: string, chains: seq<seq<nat>>, at: seq<seq<nat>>)
    requires q.Sequence? && |q.stages| > 0 && Exact(HuntOf(lib, q, Members(q, events, key)), chains)
    requires Placed(q, events, key, chains, at)
    ensures AnswersFor(lib, q, events, {key}, at)
  {
    forall i | 0 <= i < |at|
      ensures at[i] != [] && Choice(lib, q, events, at[i]) && KeyIn(q, events, at[i], {key})
    {
      ChainsAreChoices(lib, q, events, key, chains, at, i);
    }
    forall r | r != [] && Choice(lib, q, events, r) && KeyIn(q, events, r, {key}) ensures Covered(at, r) {
      ChoiceCovered(lib, q, events, key, chains, at, r);
    }
    forall i, j | 0 <= i < j < |at| ensures InOrder(q, events, at[i], at[j]) {
      ChainsInOrder(lib, q, events, key, chains, at, i, j);
    }
    GroupListed(q, events, key, at);
  }

  // ----- one group after the other -----

  lemma CoveredByEither(at: seq<seq<nat>>, more: seq<seq<nat>>, r: seq<nat>)
    ensures Covered(at, r) || Covered(more, r) ==> Covered(at + more, r)
  {
    if i :| 0 <= i < |at| && AsEarly(at[i], r) { assert AsEarly((at + more)[i], r); }
    if i :| 0 <= i < |more| && AsEarly(more[i], r) { assert AsEarly((at + more)[|at| + i], r); }
  }

  /** Starts in different groups. */
  ghost predicate Apart(q: Query, events: seq<Event>, p: seq<nat>, r: seq<nat>)
    requires q.Sequence?
  {
    && p != [] && r != [] && p[0] < |events| && r[0] < |events| && p[0] != r[0]
    && !Together(q, events[p[0]], events[r[0]])
  }

  lemma KeysApart(q: Query, events: seq<Event>, p: seq<nat>, r: seq<nat>, keys: set<string>, key: string)
    requires q.Sequence? && key !in keys && KeyIn(q, events, p, keys) && KeyIn(q, events, r, {key})
    ensures Apart(q, events, p, r)
  {
    SameKey(q, events[p[0]], events[r[0]]);
  }

  lemma ListedMore(q: Query, events: seq<Event>, at: seq<seq<nat>>, more: seq<seq<nat>>)
    requires q.Sequence? && Listed(q, events, at) && Listed(q, events, more)
    requires forall i, j :: 0 <= i < |at| && 0 <= j < |more| ==> Apart(q, events, at[i], more[j])
    requires forall i :: 0 <= i < |more| ==> more[i] != [] && more[i][0] < |events|
    requires forall i :: 0 <= i < |at| ==> at[i] != [] && at[i][0] < |events|
    ensures Listed(q, events, at + more)
  {
    var all, n := at + more, |at|;
    forall i, j | 0 <= i < j < |all| ensures InOrder(q, events, all[i], all[j]) {
      if i < n <= j { assert Apart(q, events, at[i], more[j - n]); }
    }
    forall i, j, k | 0 <= i < j < k < |all| ensures Between(q, events, all[i], all[j], all[k]) {
      if i < n <= k { assert Apart(q, events, at[i], more[k - n]); }
    }
  }

  lemma OneMoreGroup(
    lib: Lib, q: Query, events: seq<Event>, keys: set<string>, at: seq<seq<nat>>, key: string, more: seq<seq<nat>>)
    requires q.Sequence? && key !in keys
    requires AnswersFor(lib, q, events, keys, at) && AnswersFor(lib, q, events, {key}, more)
    ensures AnswersFor(lib, q, events, keys + {key}, at + more)
  {
    forall i, j | 0 <= i < |at| && 0 <= j < |more| ensures Apart(q, events, at[i], more[j]) {
      KeysApart(q, events, at[i], more[j], keys, key);
    }
    ListedMore(q, events, at, more);
    forall r | r != [] && Choice(lib, q, events, r) && KeyIn(q, events, r, keys + {key}) ensures Covered(at + more, r) {
      CoveredByEither(at, more, r);
      assert KeyIn(q, events, r, keys) || KeyIn(q, events, r, {key});
    }
  }

  /** All groups answered for. */
  lemma AllAnswered(lib: Lib, q: Query, events: seq<Event>, keys: set<string>, at: seq<seq<nat>>)
    requires q.Sequence? && |q.stages| > 0 && AnswersFor(lib, q, events, keys, at)
    requires forall k :: Members(q, events, k) != [] ==> k in keys
    ensures Answers(lib, q, events, at)
  {
    forall r | Choice(lib, q, events, r) ensures Covered(at, r) {
      SameKey(q, events[r[0]], events[r[0]]);
      var key := GroupKey(q, events[r[0]]).value;
      PlacesOfMembers(q, events, key);
      assert r[0] in Places(q, events, key);
      assert KeyIn(q, events, r, keys);
    }
  }

  // ----- running the query -----

  /** The events that the positions of a chain stand for. */
  function EventChain(group: seq<Event>, c: seq<nat>): (s: seq<Event>)
    requires InGroup(group, c)
    ensures ShowsOne(group, c, s)
  {
    seq(|c|, k requires 0 <= k < |c| => group[c[k]])
  }

  method EventChains(group: seq<Event>, chains: seq<seq<nat>>) returns (shown: seq<seq<Event>>)
    requires forall i :: 0 <= i < |chains| ==> InGroup(group, chains[i])
    ensures Shows(group, chains, shown)
  {
    shown := [];
    for i := 0 to |chains|
      invariant Shows(group, chains[..i], shown)
    {
      shown := shown + [EventChain(group, chains[i])];
    }
    assert chains[..|chains|] == chains;
  }

  lemma ShowsPlaced(q: Query, events: seq<Event>, key: string, c: seq<nat>, p: seq<nat>, s: seq<Event>)
    requires q.Sequence? && PlacedOne(q, events, key, c, p) && ShowsOne(Members(q, events, key), c, s)
    ensures ShowsOne(events, p, s)
  {
    PlacesOfMembers(q, events, key);
  }

  /** The places of the chains found, and that they answer for the group. */
  lemma ChainsPlaced(lib: Lib, q: Query, events: seq<Event>, key: string, chains: seq<seq<nat>>)
    returns (at: seq<seq<nat>>)
    requires q.Sequence? && |q.stages| > 0 && Exact(HuntOf(lib, q, Members(q, events, key)), chains)
    ensures Placed(q, events, key, chains, at) && AnswersFor(lib, q, events, {key}, at)
  {
    PlacesOfMembers(q, events, key);
    ChainsInGroup(lib, q, Members(q, events, key), chains);
    at := LiftAll(Places(q, events, key), chains);
    GroupAnswered(lib, q, events, key, chains, at);
  }

  lemma ChainsInGroup(lib: Lib, q: Query, group: seq<Event>, chains: seq<seq<nat>>)
    requires q.Sequence? && Exact(HuntOf(lib, q, group), chains)
    ensures forall i :: 0 <= i < |chains| ==> InGroup(group, chains[i])
  {
    forall i | 0 <= i < |chains| ensures InGroup(group, chains[i]) {
      assert chains[i] in chains;
      ChainInGroup(lib, q, group, chains[i]);
    }
  }

  /** One group of the query. */
  method RunGroup(lib: Lib, q: Query, events: seq<Event>, key: string, group: seq<Event>)
    returns (shown: seq<seq<Event>>, ghost at: seq<seq<nat>>)
    requires q.Sequence? && |q.stages| >= 2 && InTimeOrder(events) && group == Members(q, events, key)
    ensures Shows(events, at, shown) && AnswersFor(lib, q, events, {key}, at)
  {
    MembersTimeOrdered(q, events, key);
    var chains := MatchSequences(HuntOf(lib, q, group));
    ChainsInGroup(lib, q, group, chains);
    shown := EventChains(group, chains);
    at := ChainsPlaced(lib, q, events, key, chains);
    forall i | 0 <= i < |at| ensures ShowsOne(events, at[i], shown[i]) {
      ShowsPlaced(q, events, key, chains[i], at[i], shown[i]);
    }
  }

  lemma ShowsBoth(
    events: seq<Event>, at: seq<seq<nat>>, shown: seq<seq<Event>>, more: seq<seq<nat>>, also: seq<seq<Event>>)
    requires Shows(events, at, shown) && Shows(events, more, also)
    ensures Shows(events, at + more, shown + also)
  {
  }

  lemma GroupedAt(q: Query, events: seq<Event>, groups: map<string, seq<Event>>, k: string)
    requires q.Sequence? && Grouped(q, events, groups)
    ensures Members(q, events, k) == if k in groups then groups[k] else []
  {
  }

  lemma NothingAsked(lib: Lib, q: Query, events: seq<Event>)
    requires q.Sequence?
    ensures AnswersFor(lib, q, events, {}, [])
  {
  }

  /** A sequence query shows, for every start from which the stages can be met in order, within
      the window and by events that belong together, the earliest way of meeting them. */
  method RunSequence(lib: Lib, q: Query, events: seq<Event>)
    returns (sequences: seq<seq<Event>>, ghost at: seq<seq<nat>>)
    requires q.Sequence? && |q.stages| >= 2 && InTimeOrder(events)
    ensures Shows(events, at, sequences) && Answers(lib, q, events, at)
  {
    var groups := GroupBy(q, events);
    var left := groups.Keys;
    sequences, at := [], [];
    NothingAsked(lib, q, events);
    assert groups.Keys - left == {};
    while left != {}
      invariant left <= groups.Keys && AnswersFor(lib, q, events, groups.Keys - left, at)
      invariant Shows(events, at, sequences)
      decreases |left|
    {
      var k :| k in left;
      GroupedAt(q, events, groups, k);
      var shown, more := RunGroup(lib, q, events, k, groups[k]);
      OneMoreGroup(lib, q, events, groups.Keys - left, at, k, more);
      assert groups.Keys - (left - {k}) == groups.Keys - left + {k};
      ShowsBoth(events, at, sequences, more, shown);
      sequences, at, left := sequences + shown, at + more, left - {k};
    }
    forall k ensures Members(q, events, k) != [] ==> k in groups { GroupedAt(q, events, groups, k); }
    AllAnswered(lib, q, events, groups.Keys - left, at);
  }
}
