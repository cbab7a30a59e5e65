/** The two backends of the event lake, their answers and their histories. */
module EventLakeStore {
  import opened Text
  import opened Model
  import opened Sorting
  import opened EventLake

  // ----- orders -----

  /** Newest or oldest first, and likewise for appends that share a timestamp. */
  datatype Order = Order(newest: bool, tiesNewest: bool)

  function Time(r: Stored): (t: int) {
    r.event.timestamp
  }

  predicate Before(o: Order, a: Stored, b: Stored) {
    if Time(a) != Time(b) then (Time(a) > Time(b)) == o.newest
    else if o.tiesNewest then a.number > b.number
    else a.number < b.number
  }

  function By(o: Order): (less: (Stored, Stored) -> bool) {
    (a, b) => Before(o, a, b)
  }

  /** A number identifies its row. */
  ghost predicate Numbered(rows: set<Stored>) {
    forall a, b :: a in rows && b in rows && a.number == b.number ==> a == b
  }

  lemma ByOrders(o: Order, rows: set<Stored>)
    requires Numbered(rows)
    ensures Orders(By(o), rows)
  {
  }

  // ----- stable sorting -----

  predicate TimePrecedes(newest: bool, a: Stored, b: Stored) {
    if newest then Time(a) > Time(b) else Time(a) < Time(b)
  }

  /** x put before the first element it precedes in time, hence after its equals. */
  function InsertStable(newest: bool, xs: seq<Stored>, x: Stored): (r: seq<Stored>) {
    if xs == [] || TimePrecedes(newest, x, xs[0]) then [x] + xs
    else [xs[0]] + InsertStable(newest, xs[1..], x)
  }

  /** sort.SliceStable by time. */
  function StableSort(newest: bool, xs: seq<Stored>): (r: seq<Stored>) {
    if xs == [] then [] else InsertStable(newest, StableSort(newest, xs[..|xs| - 1]), xs[|xs| - 1])
  }

  lemma {:induction false} StableSortLength(newest: bool, xs: seq<Stored>)
    ensures |StableSort(newest, xs)| == |xs|
  {
    if xs != [] {
      StableSortLength(newest, xs[..|xs| - 1]);
      InsertLength(newest, StableSort(newest, xs[..|xs| - 1]), xs[|xs| - 1]);
    }
  }

  lemma {:induction false} InsertLength(newest: bool, xs: seq<Stored>, x: Stored)
    ensures |InsertStable(newest, xs, x)| == |xs| + 1
  {
    if xs != [] && !TimePrecedes(newest, x, xs[0]) { InsertLength(newest, xs[1..], x); }
  }

  /** Appends are numbered in order. */
  ghost predicate Ascending(xs: seq<Stored>) {
    forall i, j :: 0 <= i < j < |xs| ==> xs[i].number < xs[j].number
  }

  lemma AscendingNumbered(xs: seq<Stored>)
    requires Ascending(xs)
    ensures Numbered(Elements(xs))
  {
  }

  lemma LastStored(xs: seq<Stored>)
    requires xs != [] && Ascending(xs)
    ensures Elements(xs) == Elements(xs[..|xs| - 1]) + {xs[|xs| - 1]}
    ensures forall r :: r in Elements(xs[..|xs| - 1]) ==> r.number < xs[|xs| - 1].number
  {
    ElementsLast(xs);
  }

  lemma {:induction false} StableInsertsLast(newest: bool, xs: seq<Stored>, x: Stored)
    requires forall i :: 0 <= i < |xs| ==> xs[i].number < x.number
    ensures InsertStable(newest, xs, x) == Insert(By(Order(newest, false)), xs, x)
  {
    var o := Order(newest, false);
    if xs != [] {
      assert Before(o, x, xs[0]) <==> TimePrecedes(newest, x, xs[0]);
      if !Before(o, x, xs[0]) {
        StableInsertsLast(newest, xs[1..], x);
        InsertPasses(By(o), xs, x);
      }
    }
  }

  /** Sorting appends stably lists them by time, and those of one time in append order. */
  lemma {:induction false} StableSortOrders(newest: bool, xs: seq<Stored>)
    requires Ascending(xs)
    ensures ListOf(By(Order(newest, false)), StableSort(newest, xs), Elements(xs))
    decreases |xs|
  {
    if xs != [] {
      var n, o := |xs| - 1, Order(newest, false);
      var ys, x := StableSort(newest, xs[..n]), xs[n];
      StableSortOrders(newest, xs[..n]);
      LastStored(xs);
      forall i | 0 <= i < |ys| ensures ys[i].number < x.number {
        assert ys[i] in Elements(ys);
      }
      StableInsertsLast(newest, ys, x);
      AscendingNumbered(xs);
      ByOrders(o, Elements(xs));
      InsertLists(By(o), ys, x, Elements(xs[..n]));
    }
  }

  // ----- the answers -----

  function First<T>(xs: seq<T>, k: nat): (r: seq<T>) {
    if |xs| > k then xs[..k] else xs
  }

  /** The rows to keep, in their order. */
  function Pick(keep: Stored -> bool, rows: seq<Stored>): (r: seq<Stored>)
    ensures |r| <= |rows|
  {
    if rows == [] then []
    else
      var n := |rows| - 1;
      Pick(keep, rows[..n]) + (if keep(rows[n]) then [rows[n]] else [])
  }

  lemma PickStep(keep: Stored -> bool, rows: seq<Stored>, i: nat)
    requires i < |rows|
    ensures Pick(keep, rows[..i + 1]) == Pick(keep, rows[..i]) + (if keep(rows[i]) then [rows[i]] else [])
  {
    assert rows[..i + 1][..i] == rows[..i];
  }

  lemma {:induction false} PickSelects(keep: Stored -> bool, rows: seq<Stored>)
    requires Ascending(rows)
    ensures Ascending(Pick(keep, rows))
    ensures forall r :: r in Pick(keep, rows) <==> r in rows && keep(r)
    decreases |rows|
  {
    if rows != [] {
      var n := |rows| - 1;
      PickSelects(keep, rows[..n]);
      InitLast(rows);
      var f := Pick(keep, rows[..n]);
      forall i | 0 <= i < |f| ensures f[i].number < rows[n].number {
        assert f[i] in f;
      }
    }
  }

  function Matching(q: Query): (keep: Stored -> bool) {
    (r: Stored) => Matches(q, r.event)
  }

  function Filter(events: seq<Stored>, q: Query): (r: seq<Stored>) {
    Pick(Matching(q), events)
  }

  function MemoryAnswer(events: seq<Stored>, q: Query): (out: seq<Stored>) {
    First(StableSort(!q.ascending, Filter(events, q)), Limit(q))
  }

  ghost function Selected(rows: set<Stored>, q: Query): (s: set<Stored>) {
    set r | r in rows && Where(q, r.event)
  }

  /** What a caller is shown of rows: the events, without their numbers. */
  function Shown(rows: seq<Stored>): (es: seq<Event>)
    ensures |es| == |rows| && forall i :: 0 <= i < |rows| ==> es[i] == rows[i].event
  {
    seq(|rows|, i requires 0 <= i < |rows| => rows[i].event)
  }

  /** SELECT … WHERE … ORDER BY ts, seq LIMIT …, both columns in the query's direction. */
  ghost predicate SqlAnswer(rows: set<Stored>, q: Query, out: seq<Stored>) {
    exists full :: ListOf(By(Order(!q.ascending, !q.ascending)), full, Selected(rows, q)) &&
      out == First(full, Limit(q))
  }

  lemma FilterSelects(events: seq<Stored>, q: Query)
    requires Ascending(events)
    ensures Ascending(Filter(events, q))
    ensures forall r :: r in Filter(events, q) <==> r in events && Matches(q, r.event)
  {
    PickSelects(Matching(q), events);
  }

  /** The statement shows these events. */
  ghost predicate SqlShows(rows: set<Stored>, q: Query, es: seq<Event>) {
    exists out :: SqlAnswer(rows, q, out) && es == Shown(out)
  }

  lemma SameSelection(events: seq<Stored>, q: Query)
    requires Ascending(events) && NoWildcard(q.contains)
    ensures Elements(Filter(events, q)) == Selected(Elements(events), q)
  {
    FilterSelects(events, q);
    forall r | r in events ensures Matches(q, r.event) <==> Where(q, r.event) {
      FiltersAgree(q, r.event);
    }
  }

  /** Oldest first, memory returns exactly what the statement describes. */
  lemma AscendingAgrees(events: seq<Stored>, q: Query, out: seq<Stored>)
    requires Ascending(events) && NoWildcard(q.contains) && q.ascending
    ensures SqlAnswer(Elements(events), q, out) <==> out == MemoryAnswer(events, q)
  {
    var f := Filter(events, q);
    var rows := Selected(Elements(events), q);
    var order := By(Order(false, false));
    SameSelection(events, q);
    FilterSelects(events, q);
    StableSortOrders(false, f);
    AscendingNumbered(f);
    ByOrders(Order(false, false), rows);
    forall full | ListOf(order, full, rows) ensures full == StableSort(false, f) {
      ListUnique(order, full, StableSort(false, f), rows);
    }
  }

  /** An answer oldest first is in time order, as sequence hunts need it. */
  lemma AscendingAnswerInTimeOrder(events: seq<Stored>, q: Query, i: nat, j: nat)
    requires Ascending(events) && q.ascending && i <= j < |MemoryAnswer(events, q)|
    ensures Time(MemoryAnswer(events, q)[i]) <= Time(MemoryAnswer(events, q)[j])
  {
    var full := StableSort(false, Filter(events, q));
    FilterSelects(events, q);
    StableSortOrders(false, Filter(events, q));
    if i < j { assert By(Order(false, false))(full[i], full[j]); }
  }

  // ----- newest first -----

  function AtTime(t: int): (keep: Stored -> bool) {
    (r: Stored) => Time(r) == t
  }

  function OlderThan(t: int): (keep: Stored -> bool) {
    (r: Stored) => Time(r) < t
  }

  function NewerThan(t: int): (keep: Stored -> bool) {
    (r: Stored) => Time(r) > t
  }

  function Backwards<T>(xs: seq<T>): (r: seq<T>)
    ensures |r| == |xs| && forall i :: 0 <= i < |xs| ==> r[i] == xs[|xs| - 1 - i]
  {
    seq(|xs|, i requires 0 <= i < |xs| => xs[|xs| - 1 - i])
  }

  /** A row that none is newer than. */
  function Newest(rows: seq<Stored>): (r: Stored)
    requires rows != []
    ensures r in rows && forall x :: x in rows ==> Time(x) <= Time(r)
  {
    InitLast(rows);
    var n := |rows| - 1;
    if n == 0 then rows[0]
    else
      var r := Newest(rows[..n]);
      if Time(r) < Time(rows[n]) then rows[n] else r
  }

  lemma {:induction false} PickFewer(keep: Stored -> bool, rows: seq<Stored>, r: Stored)
    requires r in rows && !keep(r)
    ensures |Pick(keep, rows)| < |rows|
  {
    var n := |rows| - 1;
    if r != rows[n] {
      InitLast(rows);
      PickFewer(keep, rows[..n], r);
    }
  }

  /** Rows by time, the newest first, and those of one time in append order or against it. */
  function Listing(rows: seq<Stored>, tiesNewest: bool): (r: seq<Stored>)
    decreases |rows|
  {
    if rows == [] then []
    else
      var h := Newest(rows);
      var tied := Pick(AtTime(Time(h)), rows);
      PickFewer(OlderThan(Time(h)), rows, h);
      (if tiesNewest then Backwards(tied) else tied) + Listing(Pick(OlderThan(Time(h)), rows), tiesNewest)
  }

  lemma ConcatLists<T>(less: (T, T) -> bool, xs: seq<T>, a: set<T>, ys: seq<T>, b: set<T>)
    requires ListOf(less, xs, a) && ListOf(less, ys, b) && forall x, y :: x in a && y in b ==> less(x, y)
    ensures ListOf(less, xs + ys, a + b)
  {
    ElementsConcat(xs, ys);
    var r := xs + ys;
    forall i, j | 0 <= i < j < |r| ensures less(r[i], r[j]) {
      if i < |xs| <= j { assert r[i] in Elements(xs) && r[j] in Elements(ys); }
    }
  }

  lemma TiedLists(rows: seq<Stored>, t: int, tiesNewest: bool)
    requires Ascending(rows)
    ensures
      var tied := Pick(AtTime(t), rows);
      ListOf(By(Order(true, tiesNewest)), if tiesNewest then Backwards(tied) else tied, Elements(tied))
  {
    var tied := Pick(AtTime(t), rows);
    PickSelects(AtTime(t), rows);
    forall i | 0 <= i < |tied| ensures Time(tied[i]) == t { assert tied[i] in tied; }
    var back := Backwards(tied);
    forall r ensures r in back <==> r in tied {
      if r in tied {
        var i :| 0 <= i < |tied| && tied[i] == r;
        assert back[|tied| - 1 - i] == r;
      }
    }
  }

  lemma NewestSplits(rows: seq<Stored>)
    requires rows != [] && Ascending(rows)
    ensures
      var t := Time(Newest(rows));
      && Elements(rows) == Elements(Pick(AtTime(t), rows)) + Elements(Pick(OlderThan(t), rows))
      && (forall r :: r in Elements(Pick(AtTime(t), rows)) ==> Time(r) == t)
      && (forall r :: r in Elements(Pick(OlderThan(t), rows)) ==> Time(r) < t)
  {
    var t := Time(Newest(rows));
    PickSelects(AtTime(t), rows);
    PickSelects(OlderThan(t), rows);
  }

  lemma {:induction false} ListingLists(rows: seq<Stored>, tiesNewest: bool)
    requires Ascending(rows)
    ensures ListOf(By(Order(true, tiesNewest)), Listing(rows, tiesNewest), Elements(rows))
    decreases |rows|
  {
    if rows != [] {
      var t, less := Time(Newest(rows)), By(Order(true, tiesNewest));
      var tied, older := Pick(AtTime(t), rows), Pick(OlderThan(t), rows);
      PickFewer(OlderThan(t), rows, Newest(rows));
      PickSelects(OlderThan(t), rows);
      ListingLists(older, tiesNewest);
      TiedLists(rows, t, tiesNewest);
      NewestSplits(rows);
      var front := if tiesNewest then Backwards(tied) else tied;
      ConcatLists(less, front, Elements(tied), Listing(older, tiesNewest), Elements(older));
    }
  }

  // ----- when both listings show the same -----

  /** The first k read the same from both ends. */
  ghost predicate Mirrored<T>(xs: seq<T>, k: int) {
    forall i :: 0 <= i < |xs| && i < k ==> xs[i] == xs[|xs| - 1 - i]
  }

  /** The events of one time, in append order, read the same from both ends as far as a list of
      k reaches into them. */
  ghost predicate AlikeAt(rows: seq<Stored>, k: nat, t: int) {
    Mirrored(Shown(Pick(AtTime(t), rows)), k - |Pick(NewerThan(t), rows)|)
  }

  ghost predicate ReadsAlike(rows: seq<Stored>, k: nat) {
    forall t :: AlikeAt(rows, k, t)
  }

  /** What is left of a limit after n. */
  function LeftOver(k: nat, n: nat): (r: nat) {
    if k > n then k - n else 0
  }

  lemma FirstConcat<T>(xs: seq<T>, ys: seq<T>, k: nat)
    ensures First(xs + ys, k) == First(xs, k) + First(ys, LeftOver(k, |xs|))
  {
  }

  lemma SameParts<T>(a: seq<T>, b: seq<T>, c: seq<T>, d: seq<T>)
    requires |a| == |c|
    ensures a + b == c + d <==> a == c && b == d
  {
    assert (a + b)[..|a|] == a && (a + b)[|a|..] == b && (c + d)[..|c|] == c && (c + d)[|c|..] == d;
  }

  lemma MirroredFirst<T>(xs: seq<T>, k: nat)
    ensures First(xs, k) == First(Backwards(xs), k) <==> Mirrored(xs, k)
  {
    var a, b := First(xs, k), First(Backwards(xs), k);
    assert |a| == |b| && forall i :: 0 <= i < |a| ==> a[i] == xs[i] && b[i] == xs[|xs| - 1 - i];
    if a == b {
      forall i | 0 <= i < |xs| && i < k ensures xs[i] == xs[|xs| - 1 - i] { assert a[i] == b[i]; }
    }
  }

  lemma PickNone(keep: Stored -> bool, rows: seq<Stored>)
    requires forall r :: r in rows ==> !keep(r)
    ensures Pick(keep, rows) == []
  {
  }

  /** Below the newest time, the tied are among the older rows. */
  lemma {:induction false} PeelTied(rows: seq<Stored>, t: int, u: int)
    requires u < t
    ensures Pick(AtTime(u), Pick(OlderThan(t), rows)) == Pick(AtTime(u), rows)
  {
    if rows != [] {
      var n := |rows| - 1;
      PeelTied(rows[..n], t, u);
      PickSnoc(AtTime(u), Pick(OlderThan(t), rows[..n]), rows[n]);
    }
  }

  lemma PickSnoc(keep: Stored -> bool, rows: seq<Stored>, r: Stored)
    ensures Pick(keep, rows + [r]) == Pick(keep, rows) + (if keep(r) then [r] else [])
    ensures Pick(keep, rows + []) == Pick(keep, rows)
  {
    assert (rows + [r])[..|rows|] == rows && rows + [] == rows;
  }

  lemma {:induction false} PeelNewer(rows: seq<Stored>, t: int, u: int)
    requires u < t && forall r :: r in rows ==> Time(r) <= t
    ensures |Pick(NewerThan(u), rows)| == |Pick(AtTime(t), rows)| + |Pick(NewerThan(u), Pick(OlderThan(t), rows))|
  {
    if rows != [] {
      var n := |rows| - 1;
      InitLast(rows);
      PeelNewer(rows[..n], t, u);
      PickSnoc(NewerThan(u), Pick(OlderThan(t), rows[..n]), rows[n]);
    }
  }

  lemma AlikePeels(rows: seq<Stored>, k: nat, u: int)
    requires rows != [] && u < Time(Newest(rows))
    ensures
      var t := Time(Newest(rows));
      AlikeAt(rows, k, u) <==> AlikeAt(Pick(OlderThan(t), rows), LeftOver(k, |Pick(AtTime(t), rows)|), u)
  {
    var t := Time(Newest(rows));
    PeelTied(rows, t, u);
    PeelNewer(rows, t, u);
  }

  lemma NoneAbove(rows: seq<Stored>, k: nat, u: int)
    requires forall r :: r in rows ==> Time(r) < u
    ensures AlikeAt(rows, k, u)
  {
    PickNone(AtTime(u), rows);
  }

  lemma AlikeAtTop(rows: seq<Stored>, k: nat)
    requires rows != []
    ensures
      var t := Time(Newest(rows));
      AlikeAt(rows, k, t) <==> Mirrored(Shown(Pick(AtTime(t), rows)), k)
  {
    PickNone(NewerThan(Time(Newest(rows))), rows);
  }

  lemma AlikeSplits(rows: seq<Stored>, k: nat)
    requires rows != [] && Ascending(rows)
    ensures
      var t := Time(Newest(rows));
      ReadsAlike(rows, k) <==>
      Mirrored(Shown(Pick(AtTime(t), rows)), k) &&
      ReadsAlike(Pick(OlderThan(t), rows), LeftOver(k, |Pick(AtTime(t), rows)|))
  {
    var t := Time(Newest(rows));
    var older, j := Pick(OlderThan(t), rows), LeftOver(k, |Pick(AtTime(t), rows)|);
    PickSelects(OlderThan(t), rows);
    forall u
      ensures AlikeAt(rows, k, u) <==> AlikeAt(older, j, u) && (u == t ==> Mirrored(Shown(Pick(AtTime(t), rows)), k))
    {
      if u < t {
        AlikePeels(rows, k, u);
      } else {
        NoneAbove(older, j, u);
        if u == t { AlikeAtTop(rows, k); } else { NoneAbove(rows, k, u); }
      }
    }
    if ReadsAlike(rows, k) { assert AlikeAt(rows, k, t); }
  }

  lemma ShownParts(xs: seq<Stored>, ys: seq<Stored>)
    ensures Shown(xs + ys) == Shown(xs) + Shown(ys) && Shown(Backwards(xs)) == Backwards(Shown(xs))
  {
  }

  /** Both listings show the same first k events. */
  ghost predicate ListingsAgree(rows: seq<Stored>, k: nat) {
    First(Shown(Listing(rows, false)), k) == First(Shown(Listing(rows, true)), k)
  }

  lemma ListingsSplit(rows: seq<Stored>, k: nat)
    requires rows != []
    ensures
      var t := Time(Newest(rows));
      ListingsAgree(rows, k) <==>
      Mirrored(Shown(Pick(AtTime(t), rows)), k) &&
      ListingsAgree(Pick(OlderThan(t), rows), LeftOver(k, |Pick(AtTime(t), rows)|))
  {
    var t := Time(Newest(rows));
    var tied, older := Pick(AtTime(t), rows), Pick(OlderThan(t), rows);
    var j := LeftOver(k, |tied|);
    var es, a, b := Shown(tied), Shown(Listing(older, false)), Shown(Listing(older, true));
    ShownParts(tied, Listing(older, false));
    ShownParts(Backwards(tied), Listing(older, true));
    ShownParts(tied, []);
    FirstConcat(es, a, k);
    FirstConcat(Backwards(es), b, k);
    SameParts(First(es, k), First(a, j), First(Backwards(es), k), First(b, j));
    MirroredFirst(es, k);
  }

  /** Listing ties the one way or the other shows the same exactly when, at every time the first
      k reach, the events tied there read the same from both ends as far as that. */
  lemma {:induction false} ListingsAgreeExactly(rows: seq<Stored>, k: nat)
    requires Ascending(rows)
    ensures ListingsAgree(rows, k) <==> ReadsAlike(rows, k)
    decreases |rows|
  {
    if rows != [] {
      var t := Time(Newest(rows));
      PickFewer(OlderThan(t), rows, Newest(rows));
      PickSelects(OlderThan(t), rows);
      ListingsAgreeExactly(Pick(OlderThan(t), rows), LeftOver(k, |Pick(AtTime(t), rows)|));
      ListingsSplit(rows, k);
      AlikeSplits(rows, k);
    }
  }

  // ----- the in-memory store -----

  function Numbering(next: nat, es: seq<Event>): (rs: seq<Stored>)
    ensures |rs| == |es| && forall i :: 0 <= i < |es| ==> rs[i] == Stored(next + i, es[i])
  {
    seq(|es|, i requires 0 <= i < |es| => Stored(next + i, es[i]))
  }

  function NotOlderThan(before: int): (keep: Stored -> bool) {
    (r: Stored) => Time(r) >= before
  }

  function Kept(events: seq<Stored>, before: int): (r: seq<Stored>)
    ensures |r| <= |events|
  {
    Pick(NotOlderThan(before), events)
  }

  class Memory {
    var events: seq<Stored>
    var next: nat

    ghost predicate Valid()
      reads this
    {
      Ascending(events) && forall i :: 0 <= i < |events| ==> events[i].number < next
    }

    constructor ()
      ensures Valid() && events == [] && next == 0
    {
      events, next := [], 0;
    }

    method Append(cancelled: bool, es: seq<Event>) returns (ok: bool)
      requires Valid()
      modifies this
      ensures Valid() && ok == !cancelled
      ensures events == old(events) + (if ok then Numbering(old(next), es) else [])
      ensures next == old(next) + (if ok then |es| else 0)
    {
      if cancelled {
        assert events + [] == events;
        return false;
      }
      events := events + Numbering(next, es);
      next := next + |es|;
      return true;
    }

    method Query(cancelled: bool, q: Query) returns (r: Result<seq<Event>>)
      ensures r == if cancelled then Err else Ok(Shown(MemoryAnswer(events, q)))
      ensures r.Ok? ==> |r.value| <= if q.limit > 0 then q.limit else 1000
      ensures r.Ok? ==> |r.value| == |Filter(events, q)| || |r.value| == if q.limit > 0 then q.limit else 1000
    {
      if cancelled { return Err; }
      var matched: seq<Stored> := [];
      for i := 0 to |events|
        invariant matched == Filter(events[..i], q)
      {
        PickStep(Matching(q), events, i);
        if Matches(q, events[i].event) {
          matched := matched + [events[i]];
        } else {
          assert matched + [] == matched;
        }
      }
      assert events[..|events|] == events;
      StableSortLength(!q.ascending, matched);
      matched := StableSort(!q.ascending, matched);
      if |matched| > Limit(q) {
        matched := matched[..Limit(q)];
      }
      return Ok(Shown(matched));
    }

    method Count() returns (n: nat)
      ensures n == |events|
    {
      return |events|;
    }

    /** Survivors are written over the front of the list while it is being read. */
    method Prune(before: int) returns (pruned: nat)
      requires Valid()
      modifies this`events
      ensures Valid() && events == Kept(old(events), before) && pruned == |old(events)| - |events|
    {
      ghost var was := events;
      var buffer, kept := events, 0;
      pruned := 0;
      for i := 0 to |events|
        invariant |buffer| == |was| && kept + pruned == i
        invariant buffer[..kept] == Kept(was[..i], before)
        invariant forall j :: i <= j < |was| ==> buffer[j] == was[j]
      {
        var event := buffer[i];
        PickStep(NotOlderThan(before), was, i);
        if Time(event) < before {
          pruned := pruned + 1;
        } else {
          Overwrite(buffer, kept, event);
          buffer := buffer[kept := event];
          kept := kept + 1;
        }
      }
      assert was[..|was|] == was;
      KeptBelow(was, before, next);
      events := buffer[..kept];
    }
  }

  lemma Overwrite<T>(buffer: seq<T>, k: nat, x: T)
    requires k < |buffer|
    ensures buffer[k := x][..k + 1] == buffer[..k] + [x]
  {
  }

  lemma KeptBelow(was: seq<Stored>, before: int, next: nat)
    requires Ascending(was) && forall i :: 0 <= i < |was| ==> was[i].number < next
    ensures Ascending(Kept(was, before))
    ensures forall i :: 0 <= i < |Kept(was, before)| ==> Kept(was, before)[i].number < next
  {
    PickSelects(NotOlderThan(before), was);
    forall i | 0 <= i < |Kept(was, before)| ensures Kept(was, before)[i].number < next {
      assert Kept(was, before)[i] in was;
    }
  }

  // ----- histories -----

  datatype Op = Append(es: seq<Event>) | Prune(before: int)

  datatype Lake = Lake(events: seq<Stored>, next: nat)

  /** The events table: rows, and the next value of its AUTOINCREMENT column. */
  datatype Table = Table(rows: set<Stored>, next: nat)

  function LakeApply(m: Lake, op: Op): (m': Lake) {
    match op
    case Append(es) => Lake(m.events + Numbering(m.next, es), m.next + |es|)
    case Prune(before) => m.(events := Kept(m.events, before))
  }

  /** INSERT of each event in turn, and DELETE WHERE ts < ?. */
  ghost function TableApply(t: Table, op: Op): (t': Table) {
    match op
    case Append(es) => Table(t.rows + Elements(Numbering(t.next, es)), t.next + |es|)
    case Prune(before) => t.(rows := set r | r in t.rows && Time(r) >= before)
  }

  ghost function LakeAfter(ops: seq<Op>): (m: Lake) {
    if ops == [] then Lake([], 0) else LakeApply(LakeAfter(ops[..|ops| - 1]), ops[|ops| - 1])
  }

  ghost function TableAfter(ops: seq<Op>): (t: Table) {
    if ops == [] then Table({}, 0) else TableApply(TableAfter(ops[..|ops| - 1]), ops[|ops| - 1])
  }

  /** The list and the table hold the same rows. */
  ghost predicate Twins(m: Lake, t: Table) {
    && Ascending(m.events) && (forall i :: 0 <= i < |m.events| ==> m.events[i].number < m.next)
    && Elements(m.events) == t.rows && m.next == t.next
  }

  lemma TwinsKept(m: Lake, t: Table, op: Op)
    requires Twins(m, t)
    ensures Twins(LakeApply(m, op), TableApply(t, op))
  {
    match op
    case Append(es) =>
      ElementsConcat(m.events, Numbering(m.next, es));
    case Prune(before) =>
      PickSelects(NotOlderThan(before), m.events);
      var k := Kept(m.events, before);
      forall i | 0 <= i < |k| ensures k[i].number < m.next { assert k[i] in k; }
      assert Elements(k) == TableApply(t, op).rows;
  }

  /** After every history of appends and prunes, both backends hold the same events. */
  lemma {:induction false} HistoriesAgree(ops: seq<Op>)
    ensures Twins(LakeAfter(ops), TableAfter(ops))
    decreases |ops|
  {
    if ops != [] {
      HistoriesAgree(ops[..|ops| - 1]);
      TwinsKept(LakeAfter(ops[..|ops| - 1]), TableAfter(ops[..|ops| - 1]), ops[|ops| - 1]);
    }
  }

  lemma {:induction false} AscendingCard(xs: seq<Stored>)
    requires Ascending(xs)
    ensures |Elements(xs)| == |xs|
    decreases |xs|
  {
    if xs != [] {
      var n := |xs| - 1;
      AscendingCard(xs[..n]);
      assert xs == xs[..n] + [xs[n]];
      assert Elements(xs) == Elements(xs[..n]) + {xs[n]} && xs[n] !in xs[..n];
    }
  }

  function Appended(ops: seq<Op>): (n: nat) {
    if ops == [] then 0
    else Appended(ops[..|ops| - 1]) + (if ops[|ops| - 1].Append? then |ops[|ops| - 1].es| else 0)
  }

  /** The rows the prunes of a history reported as removed, by the SQL statement. */
  ghost function Pruned(ops: seq<Op>): (n: nat) {
    if ops == [] then 0
    else
      var earlier, last := ops[..|ops| - 1], ops[|ops| - 1];
      Pruned(earlier) + (if last.Prune? then |set r | r in TableAfter(earlier).rows && Time(r) < last.before| else 0)
  }

  lemma PruneSplits(rows: set<Stored>, before: int)
    ensures |rows| == |set r | r in rows && Time(r) >= before| + |set r | r in rows && Time(r) < before|
  {
    var keep, drop := set r | r in rows && Time(r) >= before, set r | r in rows && Time(r) < before;
    assert rows == keep + drop && keep !! drop;
  }

  /** In both backends the count is what was appended less what was pruned. */
  lemma {:induction false} CountIsConserved(ops: seq<Op>)
    ensures |LakeAfter(ops).events| == |TableAfter(ops).rows| == Appended(ops) - Pruned(ops)
    decreases |ops|
  {
    HistoriesAgree(ops);
    AscendingCard(LakeAfter(ops).events);
    if ops != [] {
      var earlier, last := ops[..|ops| - 1], ops[|ops| - 1];
      CountIsConserved(earlier);
      match last
      case Append(es) =>
      case Prune(before) => PruneSplits(TableAfter(earlier).rows, before);
    }
  }

  /** What a prune of the list reports is what the DELETE reports. */
  lemma PruneReportsAgree(ops: seq<Op>, before: int)
    ensures |LakeAfter(ops).events| - |Kept(LakeAfter(ops).events, before)|
         == |set r | r in TableAfter(ops).rows && Time(r) < before|
  {
    HistoriesAgree(ops);
    var m, t := LakeAfter(ops), TableAfter(ops);
    TwinsKept(m, t, Prune(before));
    AscendingCard(m.events);
    AscendingCard(Kept(m.events, before));
    PruneSplits(t.rows, before);
  }

  // ----- any query, any history -----

  /** What the statement lists first: each selected row has so many ahead of it. */
  ghost function Ahead(q: Query, rows: set<Stored>, r: Stored): (s: set<Stored>) {
    set x | x in rows && Before(SqlOrder(q), x, r)
  }

  function SqlOrder(q: Query): (o: Order) {
    Order(!q.ascending, !q.ascending)
  }

  ghost function Matched(rows: set<Stored>, q: Query): (s: set<Stored>) {
    set r | r in rows && Matches(q, r.event)
  }

  /** A row that SQL selects and memory does not, near enough to the front to be returned. */
  ghost predicate Intrudes(rows: set<Stored>, q: Query, r: Stored) {
    r in Selected(rows, q) && !Matches(q, r.event) && |Ahead(q, Selected(rows, q), r)| < Limit(q)
  }

  lemma {:induction false} DistinctCard<T>(xs: seq<T>)
    requires Distinct(xs)
    ensures |Elements(xs)| == |xs|
    decreases |xs|
  {
    if xs != [] {
      LastElement(xs);
      DistinctCard(xs[..|xs| - 1]);
    }
  }

  lemma IncreasingDistinct(o: Order, xs: seq<Stored>)
    requires Increasing(By(o), xs)
    ensures Distinct(xs)
  {
    forall i, j | 0 <= i < j < |xs| ensures xs[i] != xs[j] { assert By(o)(xs[i], xs[j]); }
  }

  lemma NotBefore(o: Order, xs: seq<Stored>, i: nat, j: nat)
    requires Increasing(By(o), xs) && i < |xs| && j < |xs|
    ensures Before(o, xs[j], xs[i]) ==> j < i
  {
    assert i < j ==> By(o)(xs[i], xs[j]);
  }

  lemma AheadIsPrefix(q: Query, full: seq<Stored>, rows: set<Stored>, i: nat)
    requires Numbered(rows) && ListOf(By(SqlOrder(q)), full, rows) && i < |full|
    ensures |Ahead(q, rows, full[i])| == i
  {
    var o := SqlOrder(q);
    IncreasingDistinct(o, full);
    var front := full[..i];
    assert Distinct(front);
    DistinctCard(front);
    forall x | x in Ahead(q, rows, full[i]) ensures x in Elements(front) {
      assert x in Elements(full);
      var j :| 0 <= j < |full| && full[j] == x;
      NotBefore(o, full, i, j);
      assert front[j] == x;
    }
    forall x | x in Elements(front) ensures x in Ahead(q, rows, full[i]) {
      var j :| 0 <= j < i && front[j] == x;
      assert By(o)(full[j], full[i]) && full[j] in Elements(full);
    }
    assert Ahead(q, rows, full[i]) == Elements(front);
  }

  lemma ReturnedExactly(q: Query, full: seq<Stored>, rows: set<Stored>, r: Stored)
    requires Numbered(rows) && ListOf(By(SqlOrder(q)), full, rows) && r in rows
    ensures r in First(full, Limit(q)) <==> |Ahead(q, rows, r)| < Limit(q)
  {
    assert r in Elements(full);
    var i :| 0 <= i < |full| && full[i] == r;
    AheadIsPrefix(q, full, rows, i);
    IncreasingDistinct(SqlOrder(q), full);
    var k := Limit(q);
    if i < k { assert First(full, k)[i] == r; }
    if r in First(full, k) {
      var j :| 0 <= j < |First(full, k)| && First(full, k)[j] == r;
      assert full[j] == r;
    }
  }

  lemma FirstCons<T>(xs: seq<T>, k: nat)
    requires xs != [] && k > 0
    ensures First(xs, k) == [xs[0]] + First(xs[1..], k - 1)
  {
    if |xs| > k { assert xs[..k] == [xs[0]] + xs[1..][..k - 1]; } else { assert xs == [xs[0]] + xs[1..]; }
  }

  /** Rows behind the first k may be left out of the list. */
  lemma {:induction false} FirstOfSubset(
    o: Order, xs: seq<Stored>, rows: set<Stored>, ys: seq<Stored>, some: set<Stored>, k: nat)
    requires Numbered(rows) && some <= rows && ListOf(By(o), xs, rows) && ListOf(By(o), ys, some)
    requires forall i :: 0 <= i < |First(xs, k)| ==> First(xs, k)[i] in some
    ensures First(xs, k) == First(ys, k)
    decreases |xs|
  {
    EmptyElements(xs);
    EmptyElements(ys);
    if k > 0 && xs != [] {
      var h := xs[0];
      FirstCons(xs, k);
      assert First(xs, k)[0] == h;
      ByOrders(o, rows);
      ByOrders(o, some);
      SameHead(o, xs, rows, ys, some);
      TailList(By(o), xs, rows);
      TailList(By(o), ys, some);
      FirstCons(ys, k);
      var tail := First(xs[1..], k - 1);
      forall i | 0 <= i < |tail| ensures tail[i] in some - {h} {
        assert First(xs, k)[i + 1] == tail[i];
        assert tail[i] == xs[1..][i] && xs[1..][i] in Elements(xs[1..]);
      }
      FirstOfSubset(o, xs[1..], rows - {h}, ys[1..], some - {h}, k - 1);
    }
  }

  lemma SameHead(o: Order, xs: seq<Stored>, rows: set<Stored>, ys: seq<Stored>, some: set<Stored>)
    requires Orders(By(o), rows) && some <= rows && ListOf(By(o), xs, rows) && ListOf(By(o), ys, some)
    requires xs != [] && xs[0] in some
    ensures ys != [] && ys[0] == xs[0]
  {
    EmptyElements(ys);
    HeadFirst(By(o), ys, some, xs[0]);
    HeadFirst(By(o), xs, rows, ys[0]);
  }

  lemma MatchedRows(events: seq<Stored>, q: Query)
    requires Ascending(events)
    ensures Elements(Filter(events, q)) == Matched(Elements(events), q) <= Selected(Elements(events), q)
    ensures Numbered(Selected(Elements(events), q))
  {
    FilterSelects(events, q);
    AscendingNumbered(events);
    forall r | r in events && Matches(q, r.event) ensures Where(q, r.event) { FiltersAgree(q, r.event); }
  }

  /** Over the rows memory selects, it shows what the statement would unless ties read
      differently from both ends. */
  lemma MatchedAnswer(events: seq<Stored>, q: Query, ms: seq<Stored>)
    requires Ascending(events) && ListOf(By(SqlOrder(q)), ms, Matched(Elements(events), q))
    ensures Shown(MemoryAnswer(events, q)) == Shown(First(ms, Limit(q))) <==>
            q.ascending || ReadsAlike(Filter(events, q), Limit(q))
  {
    var f, k := Filter(events, q), Limit(q);
    MatchedRows(events, q);
    FilterSelects(events, q);
    StableSortOrders(!q.ascending, f);
    AscendingNumbered(f);
    ByOrders(SqlOrder(q), Elements(f));
    if q.ascending {
      ListUnique(By(SqlOrder(q)), ms, StableSort(false, f), Elements(f));
    } else {
      NewestListings(f, ms);
      ListingsAgreeExactly(f, k);
      ShownFirst(StableSort(true, f), k);
      ShownFirst(ms, k);
    }
  }

  lemma NewestListings(f: seq<Stored>, ms: seq<Stored>)
    requires Ascending(f) && ListOf(By(Order(true, true)), ms, Elements(f))
    ensures StableSort(true, f) == Listing(f, false) && ms == Listing(f, true)
  {
    AscendingNumbered(f);
    StableSortOrders(true, f);
    ByOrders(Order(true, false), Elements(f));
    ByOrders(Order(true, true), Elements(f));
    ListingLists(f, false);
    ListingLists(f, true);
    ListUnique(By(Order(true, false)), StableSort(true, f), Listing(f, false), Elements(f));
    ListUnique(By(Order(true, true)), ms, Listing(f, true), Elements(f));
  }

  lemma ShownFirst(rows: seq<Stored>, k: nat)
    ensures Shown(First(rows, k)) == First(Shown(rows), k)
  {
  }

  lemma FirstElements(o: Order, xs: seq<Stored>, rows: set<Stored>, k: nat, r: Stored)
    requires ListOf(By(o), xs, rows) && r in First(xs, k)
    ensures r in rows
  {
    assert r in Elements(xs);
  }

  /** With nothing intruding, the statement's answer is that over the rows memory selects; with
      an intruder, it shows an event memory never shows. */
  lemma IntruderTells(events: seq<Stored>, q: Query, full: seq<Stored>, ms: seq<Stored>)
    requires Ascending(events)
    requires ListOf(By(SqlOrder(q)), full, Selected(Elements(events), q))
    requires ListOf(By(SqlOrder(q)), ms, Matched(Elements(events), q))
    ensures (forall r :: !Intrudes(Elements(events), q, r)) ==> First(full, Limit(q)) == First(ms, Limit(q))
    ensures (exists r :: Intrudes(Elements(events), q, r)) ==>
            Shown(First(full, Limit(q))) != Shown(MemoryAnswer(events, q))
  {
    var rows, all, some := Elements(events), Selected(Elements(events), q), Matched(Elements(events), q);
    MatchedRows(events, q);
    var front := First(full, Limit(q));
    if r :| Intrudes(rows, q, r) {
      ReturnedExactly(q, full, all, r);
      var i :| 0 <= i < |front| && front[i] == r;
      assert Shown(front)[i] == r.event;
      NeverShown(events, q, r.event);
    } else {
      forall i | 0 <= i < |front| ensures front[i] in some {
        FirstElements(SqlOrder(q), full, all, Limit(q), front[i]);
        ReturnedExactly(q, full, all, front[i]);
        assert !Intrudes(rows, q, front[i]);
      }
      FirstOfSubset(SqlOrder(q), full, all, ms, some, Limit(q));
    }
  }

  lemma NeverShown(events: seq<Stored>, q: Query, e: Event)
    requires Ascending(events) && !Matches(q, e)
    ensures e !in Shown(MemoryAnswer(events, q))
  {
    var f, out := Filter(events, q), MemoryAnswer(events, q);
    FilterSelects(events, q);
    StableSortOrders(!q.ascending, f);
    forall i | 0 <= i < |out| ensures Shown(out)[i] != e {
      FirstElements(Order(!q.ascending, false), StableSort(!q.ascending, f), Elements(f), Limit(q), out[i]);
    }
  }

  /** Nothing SQL alone selects is shown, and newest first no tie reads differently from both
      ends as far as the limit reaches. */
  ghost predicate SameAnswer(events: seq<Stored>, q: Query) {
    && (forall r :: !Intrudes(Elements(events), q, r))
    && (q.ascending || ReadsAlike(Filter(events, q), Limit(q)))
  }

  lemma AnswersAgreeExactly(events: seq<Stored>, q: Query)
    requires Ascending(events)
    ensures SqlShows(Elements(events), q, Shown(MemoryAnswer(events, q))) <==> SameAnswer(events, q)
  {
    var all, some := Selected(Elements(events), q), Matched(Elements(events), q);
    MatchedRows(events, q);
    ByOrders(SqlOrder(q), all);
    ByOrders(SqlOrder(q), some);
    var full, ms := SortedBy(By(SqlOrder(q)), all), SortedBy(By(SqlOrder(q)), some);
    IntruderTells(events, q, full, ms);
    MatchedAnswer(events, q, ms);
    OnlyShown(Elements(events), q, full, Shown(MemoryAnswer(events, q)));
  }

  lemma OnlyShown(rows: set<Stored>, q: Query, full: seq<Stored>, es: seq<Event>)
    requires Orders(By(SqlOrder(q)), Selected(rows, q)) && ListOf(By(SqlOrder(q)), full, Selected(rows, q))
    ensures SqlShows(rows, q, es) <==> es == Shown(First(full, Limit(q)))
  {
    forall other | ListOf(By(SqlOrder(q)), other, Selected(rows, q)) ensures other == full {
      ListUnique(By(SqlOrder(q)), other, full, Selected(rows, q));
    }
    assert SqlAnswer(rows, q, First(full, Limit(q)));
  }

  /** Without wildcards, newest first, ties alone decide. */
  lemma NewestAgreesExactly(events: seq<Stored>, q: Query)
    requires Ascending(events) && NoWildcard(q.contains) && !q.ascending
    ensures SqlShows(Elements(events), q, Shown(MemoryAnswer(events, q))) <==>
            ReadsAlike(Filter(events, q), Limit(q))
  {
    NothingIntrudes(events, q);
    AnswersAgreeExactly(events, q);
  }

  lemma NothingIntrudes(events: seq<Stored>, q: Query)
    requires NoWildcard(q.contains)
    ensures forall r :: !Intrudes(Elements(events), q, r)
  {
    forall r ensures !Intrudes(Elements(events), q, r) { FiltersAgree(q, r.event); }
  }

  /** Over distinct timestamps the two backends always agree. */
  lemma DistinctTimesAgree(events: seq<Stored>, q: Query)
    requires Ascending(events) && NoWildcard(q.contains)
    requires forall i, j :: 0 <= i < j < |events| ==> Time(events[i]) != Time(events[j])
    ensures SqlShows(Elements(events), q, Shown(MemoryAnswer(events, q)))
  {
    NothingIntrudes(events, q);
    var f := Filter(events, q);
    FilterSelects(events, q);
    forall t ensures AlikeAt(f, Limit(q), t) { AloneAt(events, f, Limit(q), t); }
    AnswersAgreeExactly(events, q);
  }

  lemma AloneAt(events: seq<Stored>, f: seq<Stored>, k: nat, t: int)
    requires Ascending(f) && forall r :: r in f ==> r in events
    requires forall i, j :: 0 <= i < j < |events| ==> Time(events[i]) != Time(events[j])
    ensures AlikeAt(f, k, t)
  {
    var tied := Pick(AtTime(t), f);
    PickSelects(AtTime(t), f);
    forall i, j | 0 <= i < |tied| && 0 <= j < |tied| ensures tied[i] == tied[j] {
      assert tied[i] in tied && tied[j] in tied;
      var x :| 0 <= x < |events| && events[x] == tied[i];
      var y :| 0 <= y < |events| && events[y] == tied[j];
    }
  }

  /** After any history and for any query: both backends show the same events exactly when no
      event that SQL alone selects is near enough to the front to be shown and, newest first,
      the matching events of each time read the same from both ends of their append order, as
      far as the limit reaches. */
  lemma BackendsAgree(ops: seq<Op>, q: Query)
    ensures SqlShows(TableAfter(ops).rows, q, Shown(MemoryAnswer(LakeAfter(ops).events, q))) <==>
            SameAnswer(LakeAfter(ops).events, q)
  {
    HistoriesAgree(ops);
    AnswersAgreeExactly(LakeAfter(ops).events, q);
  }

  // ----- which queries never tell the backends apart -----

  ghost predicate AlwaysAgrees(q: Query) {
    forall ops :: SqlShows(TableAfter(ops).rows, q, Shown(MemoryAnswer(LakeAfter(ops).events, q)))
  }

  lemma AfterAppend(es: seq<Event>)
    ensures LakeAfter([Append(es)]).events == Numbering(0, es)
  {
    assert [Append(es)][..0] == [];
    assert LakeAfter([]) == Lake([], 0);
  }

  lemma LoneIntruder(q: Query, r: Stored)
    requires Where(q, r.event) && !Matches(q, r.event)
    ensures Intrudes({r}, q, r)
  {
    assert Ahead(q, Selected({r}, q), r) == {};
  }

  /** One event that SQL alone selects. */
  lemma OvermatchTells(q: Query, e: Event)
    requires Where(q, e) && !Matches(q, e)
    ensures !AlwaysAgrees(q)
  {
    var ops, r := [Append([e])], Stored(0, e);
    AfterAppend([e]);
    assert Numbering(0, [e]) == [r];
    assert Elements([r]) == {r};
    LoneIntruder(q, r);
    BackendsAgree(ops, q);
  }

  /** The same event from another parent: a query does not see the difference. */
  function Sibling(e: Event): (s: Event)
    ensures s != e && s.timestamp == e.timestamp
  {
    var ppid: Uint32 := if e.process.ppid == 0 then 1 else 0;
    e.(process := e.process.(ppid := ppid))
  }

  lemma SiblingMatches(q: Query, e: Event)
    ensures Matches(q, Sibling(e)) == Matches(q, e)
  {
    assert SearchText(Sibling(e)) == SearchText(e);
  }

  /** Two different events of one time. */
  lemma PairReadsApart(e: Event, k: nat)
    requires k > 0
    ensures !ReadsAlike([Stored(0, e), Stored(1, Sibling(e))], k)
  {
    var rows := [Stored(0, e), Stored(1, Sibling(e))];
    PairPicked(AtTime(e.timestamp), rows);
    PickNone(NewerThan(e.timestamp), rows);
    assert Shown(rows)[0] == e && Shown(rows)[1] == Sibling(e);
    assert !AlikeAt(rows, k, e.timestamp);
  }

  /** Each backend shows another one of them first. */
  lemma TieTells(q: Query, e: Event)
    requires Matches(q, e) && !q.ascending
    ensures !AlwaysAgrees(q)
  {
    var ops, es := [Append([e, Sibling(e)])], [e, Sibling(e)];
    var rows := [Stored(0, e), Stored(1, Sibling(e))];
    AfterAppend(es);
    assert Numbering(0, es) == rows;
    SiblingMatches(q, e);
    PairPicked(Matching(q), rows);
    PairReadsApart(e, Limit(q));
    BackendsAgree(ops, q);
  }

  lemma PairPicked(keep: Stored -> bool, rows: seq<Stored>)
    requires |rows| == 2 && keep(rows[0]) && keep(rows[1])
    ensures Pick(keep, rows) == rows
  {
    assert rows[..1] == [rows[0]] && [rows[0]][..0] == [];
    assert Pick(keep, [rows[0]]) == [rows[0]];
  }

  lemma SomethingMatches(q: Query) returns (e: Event)
    requires !EmptyRange(q)
    ensures Matches(q, e)
  {
    var c := Lower(q.contains);
    LowerIsLower(q.contains);
    e := EventFor(q, c, "");
    EventForMeets(q, c, "");
    EventForText(q, c, "");
    var t := SearchText(e);
    assert t[0..] == t && c <= t;
  }

  lemma NothingTied(k: nat)
    ensures ReadsAlike([], k)
  {
  }

  lemma SameFiltersAgree(q: Query)
    requires FiltersSame(q) && (q.ascending || EmptyRange(q))
    ensures AlwaysAgrees(q)
  {
    forall ops ensures SqlShows(TableAfter(ops).rows, q, Shown(MemoryAnswer(LakeAfter(ops).events, q))) {
      var events := LakeAfter(ops).events;
      forall r ensures !Intrudes(Elements(events), q, r) { assert Matches(q, r.event) <==> Where(q, r.event); }
      if !q.ascending {
        PickNone(Matching(q), events);
        NothingTied(Limit(q));
      }
      BackendsAgree(ops, q);
    }
  }

  /** The queries on which the backends agree after every history: those with no time in
      range, and those oldest first whose text holds no wildcard or is in the host asked for. */
  lemma AlwaysAgreesExactly(q: Query)
    ensures AlwaysAgrees(q) <==>
      EmptyRange(q) || (q.ascending && (NoWildcard(q.contains) || HostHolds(q)))
  {
    FiltersAgreeExactly(q);
    if EmptyRange(q) || (q.ascending && (NoWildcard(q.contains) || HostHolds(q))) {
      SameFiltersAgree(q);
    } else if q.ascending {
      OvermatchedDiffers(q);
      OvermatchTells(q, Overmatched(q));
    } else {
      var e := SomethingMatches(q);
      TieTells(q, e);
    }
  }
}
