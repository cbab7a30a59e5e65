/** Interleavings of the bus. Publish holds the read lock: several publishers fan out at
    once, one send per step, while consumers receive. Subscribe, Unsubscribe and Close hold
    the write lock: they run only when no publisher is fanning out. */
module EventBusRuns {
  import opened Text
  import opened Model
  import opened EventBus

  /** A publish in progress: the event, and the subscribers it has not reached. */
  datatype Flight = Flight(event: Event, left: set<nat>)

  datatype World = World(data: Data, flights: map<nat, Flight>)

  const START := World(EMPTY, map[])

  datatype Step =
    | Begin(p: nat, event: Event)
    | Offer(p: nat, id: nat)
    | End(p: nat)
    | Subscribe(id: nat, buffer: int)
    | Unsubscribe(id: nat)
    | Close
    | Receive(id: nat)

  predicate Enabled(w: World, s: Step) {
    match s
    case Begin(p, _) => p !in w.flights
    case Offer(p, id) => p in w.flights && id in w.flights[p].left
    case End(p) => p in w.flights && w.flights[p].left == {}
    case Subscribe(id, _) => w.flights == map[] && id !in w.data.channels
    case Unsubscribe(_) => w.flights == map[]
    case Close => w.flights == map[]
    case Receive(id) => id in w.data.channels && w.data.channels[id].queue != []
  }

  /** The channels a step sends on, and the channels it closes. */
  function Sends(s: Step): (ids: set<nat>) {
    if s.Offer? then {s.id} else {}
  }

  function Closes(w: World, s: Step): (ids: set<nat>) {
    match s
    case Unsubscribe(id) => if id in w.data.subs then {id} else {}
    case Close => if w.data.closed then {} else w.data.subs
    case _ => {}
  }

  /** A step panics if it sends on, or closes, a channel that is not open. */
  ghost predicate Panics(w: World, s: Step) {
    exists id :: id in Sends(s) + Closes(w, s) && !Open(w.data, id)
  }

  function Took(d: Data, id: nat): (d': Data)
    requires id in d.channels && d.channels[id].queue != []
  {
    d.(channels := d.channels[id := d.channels[id].(queue := d.channels[id].queue[1..])])
  }

  function Apply(w: World, s: Step): (w': World)
    requires Enabled(w, s) && !Panics(w, s)
  {
    var d := w.data;
    match s
    case Begin(p, e) => if d.closed then w else w.(flights := w.flights[p := Flight(e, d.subs)])
    case Offer(p, id) =>
      var f := w.flights[p];
      assert id in Sends(s) + Closes(w, s);
      World(Offered(d, id, f.event), w.flights[p := f.(left := f.left - {id})])
    case End(p) => w.(flights := w.flights - {p})
    case Subscribe(id, buffer) => w.(data := Subscribed(d, id, buffer))
    case Unsubscribe(id) =>
      assert id in d.subs ==> id in Sends(s) + Closes(w, s);
      w.(data := Removed(d, id))
    case Close => w.(data := BusClosed(d))
    case Receive(id) => w.(data := Took(d, id))
  }

  // ----- safety -----

  ghost predicate Good(w: World) {
    && Consistent(w.data)
    && (forall p :: p in w.flights ==> w.flights[p].left <= w.data.subs)
    && (w.data.closed ==> w.flights == map[])
  }

  lemma GoodNeverPanics(w: World, s: Step)
    requires Good(w) && Enabled(w, s)
    ensures !Panics(w, s)
  {
  }

  lemma GoodKept(w: World, s: Step)
    requires Good(w) && Enabled(w, s) && !Panics(w, s)
    ensures Good(Apply(w, s))
  {
    match s
    case Offer(p, id) => OfferKept(w, s);
    case Subscribe(id, buffer) => SubscribeKeeps(w.data, id, buffer);
    case Unsubscribe(id) => RemoveKeeps(w.data, id);
    case Close => CloseKeeps(w.data);
    case _ =>
  }

  lemma OfferKept(w: World, s: Step)
    requires Good(w) && Enabled(w, s) && !Panics(w, s) && s.Offer?
    ensures Good(Apply(w, s))
  {
    OfferKeeps(w.data, s.id, w.flights[s.p].event);
  }

  /** Every step is enabled where it is taken. */
  ghost predicate Valid(run: seq<Step>)
    decreases |run|, 0
  {
    run == [] || (Valid(Init(run)) && Enabled(After(Init(run)), Last(run)))
  }

  /** The world after an interleaving; no interleaving panics. */
  ghost function After(run: seq<Step>): (w: World)
    requires Valid(run)
    ensures Good(w)
    decreases |run|, 1
  {
    if run == [] then START
    else
      var w := After(Init(run));
      GoodNeverPanics(w, Last(run));
      GoodKept(w, Last(run));
      Apply(w, Last(run))
  }

  /** In every interleaving a subscription is registered exactly when its channel is open, and no
      step that can be taken next sends on a closed channel or closes one twice. */
  lemma RegisteredExactlyWhenOpen(run: seq<Step>, s: Step)
    requires Valid(run)
    ensures forall id :: id in After(run).data.subs <==> Open(After(run).data, id)
    ensures Enabled(After(run), s) ==> !Panics(After(run), s)
  {
    if Enabled(After(run), s) { GoodNeverPanics(After(run), s); }
  }

  lemma {:induction false} PrefixesValid(run: seq<Step>, n: nat)
    requires Valid(run) && n <= |run|
    ensures Valid(run[..n])
  {
    if n < |run| {
      PrefixesValid(Init(run), n);
      assert Init(run)[..n] == run[..n];
    } else {
      assert run[..n] == run;
    }
  }

  /** The world before the n-th step. */
  ghost function At(run: seq<Step>, n: nat): (w: World)
    requires Valid(run) && n <= |run|
  {
    PrefixesValid(run, n);
    After(run[..n])
  }

  lemma AtInit(run: seq<Step>, n: nat)
    requires Valid(run) && n < |run|
    ensures At(run, n) == At(Init(run), n)
  {
    assert Init(run)[..n] == run[..n];
  }

  /** Closing is final. */
  lemma {:induction false} ClosedForever(run: seq<Step>, n: nat, id: nat)
    requires Valid(run) && n <= |run| && id in At(run, n).data.channels && !Open(At(run, n).data, id)
    ensures id in After(run).data.channels && !Open(After(run).data, id)
  {
    if n == |run| {
      assert run[..n] == run;
    } else {
      AtInit(run, n);
      ClosedForever(Init(run), n, id);
      StaysClosed(After(Init(run)), Last(run), id);
    }
  }

  lemma StaysClosed(w: World, s: Step, id: nat)
    requires Good(w) && Enabled(w, s) && !Panics(w, s) && id in w.data.channels && !Open(w.data, id)
    ensures id in Apply(w, s).data.channels && !Open(Apply(w, s).data, id)
  {
  }

  lemma StepTaken(run: seq<Step>, i: nat)
    requires Valid(run) && i < |run|
    ensures Enabled(At(run, i), run[i]) && !Panics(At(run, i), run[i])
    ensures At(run, i + 1) == Apply(At(run, i), run[i])
  {
    PrefixesValid(run, i + 1);
    var r := run[..i + 1];
    assert Init(r) == run[..i] && Last(r) == run[i];
    GoodNeverPanics(At(run, i), run[i]);
  }

  lemma CloseShuts(w: World, s: Step, id: nat)
    requires Good(w) && Enabled(w, s) && !Panics(w, s) && id in Closes(w, s)
    ensures id in Apply(w, s).data.channels && !Open(Apply(w, s).data, id)
  {
  }

  lemma ClosedBy(run: seq<Step>, i: nat, id: nat)
    requires Valid(run) && i < |run| && id in Closes(At(run, i), run[i])
    ensures id in At(run, i + 1).data.channels && !Open(At(run, i + 1).data, id)
  {
    StepTaken(run, i);
    CloseShuts(At(run, i), run[i], id);
  }

  lemma StillClosed(run: seq<Step>, n: nat, j: nat, id: nat)
    requires Valid(run) && n <= j <= |run| && id in At(run, n).data.channels && !Open(At(run, n).data, id)
    ensures !Open(At(run, j).data, id)
  {
    PrefixesValid(run, j);
    assert run[..j][..n] == run[..n];
    ClosedForever(run[..j], n, id);
  }

  /** After a channel is closed, no later step sends on it or closes it again. */
  lemma QuietAfterClose(run: seq<Step>, i: nat, j: nat, id: nat)
    requires Valid(run) && i < j < |run| && id in Closes(At(run, i), run[i])
    ensures id !in Sends(run[j]) && id !in Closes(At(run, j), run[j])
  {
    ClosedBy(run, i, id);
    StillClosed(run, i + 1, j, id);
    StepTaken(run, j);
    Untouched(At(run, j), run[j], id);
  }

  lemma Untouched(w: World, s: Step, id: nat)
    requires !Panics(w, s) && !Open(w.data, id)
    ensures id !in Sends(s) && id !in Closes(w, s)
  {
    assert id in Sends(s) || id in Closes(w, s) ==> id in Sends(s) + Closes(w, s);
  }

  // ----- conservation and order -----

  /** The events publisher p published, in order, that were not refused. */
  ghost function PublishedBy(run: seq<Step>, p: nat): (es: seq<Event>)
    requires Valid(run)
    decreases |run|
  {
    if run == [] then []
    else
      var s := Last(run);
      PublishedBy(Init(run), p) +
      (if s.Begin? && s.p == p && !After(Init(run)).data.closed then [s.event] else [])
  }

  /** Those of them published while subscription id was registered. */
  ghost function DueTo(run: seq<Step>, p: nat, id: nat): (es: seq<Event>)
    requires Valid(run)
    decreases |run|
  {
    if run == [] then []
    else
      var s, w := Last(run), After(Init(run));
      DueTo(Init(run), p, id) +
      (if s.Begin? && s.p == p && !w.data.closed && id in w.data.subs then [s.event] else [])
  }

  /** The events p offered to id, in order. */
  ghost function OfferedTo(run: seq<Step>, p: nat, id: nat): (es: seq<Event>)
    requires Valid(run)
    decreases |run|
  {
    if run == [] then []
    else
      var s := Last(run);
      OfferedTo(Init(run), p, id) + (if s == Offer(p, id) then [After(Init(run)).flights[p].event] else [])
  }

  predicate Accepts(w: World, s: Step, id: nat) {
    s.Offer? && s.id == id && id in w.data.channels && !Full(w.data.channels[id])
  }

  /** The events of p that id's channel accepted. */
  ghost function AcceptedFrom(run: seq<Step>, p: nat, id: nat): (es: seq<Event>)
    requires Valid(run)
    decreases |run|
  {
    if run == [] then []
    else
      var s, w := Last(run), After(Init(run));
      AcceptedFrom(Init(run), p, id) + (if s == Offer(p, id) && Accepts(w, s, id) then [w.flights[p].event] else [])
  }

  /** The events id's channel accepted from anyone. */
  ghost function Accepted(run: seq<Step>, id: nat): (es: seq<Event>)
    requires Valid(run)
    decreases |run|
  {
    if run == [] then []
    else
      var s, w := Last(run), After(Init(run));
      Accepted(Init(run), id) + (if Accepts(w, s, id) then [w.flights[s.p].event] else [])
  }

  ghost function Received(run: seq<Step>, id: nat): (es: seq<Event>)
    requires Valid(run)
    decreases |run|
  {
    if run == [] then []
    else
      var s, w := Last(run), After(Init(run));
      Received(Init(run), id) + (if s == Receive(id) then [w.data.channels[id].queue[0]] else [])
  }

  /** Offers p made to id that found the buffer full. */
  ghost function DroppedFrom(run: seq<Step>, p: nat, id: nat): (n: nat)
    requires Valid(run)
    decreases |run|
  {
    if run == [] then 0
    else
      var s, w := Last(run), After(Init(run));
      DroppedFrom(Init(run), p, id) + (if s == Offer(p, id) && !Accepts(w, s, id) then 1 else 0)
  }

  /** All such offers, whoever made them. */
  ghost function Drops(run: seq<Step>): (n: nat)
    requires Valid(run)
    decreases |run|
  {
    if run == [] then 0
    else
      var s, w := Last(run), After(Init(run));
      Drops(Init(run)) + (if s.Offer? && !Accepts(w, s, s.id) then 1 else 0)
  }

  /** What p has begun and not yet offered to id. */
  ghost function Pending(w: World, p: nat, id: nat): (es: seq<Event>) {
    if p in w.flights && id in w.flights[p].left then [w.flights[p].event] else []
  }

  lemma PendingStep(w: World, s: Step, p: nat, id: nat)
    requires Good(w) && Enabled(w, s) && !Panics(w, s)
    ensures (if s == Offer(p, id) then [w.flights[p].event] else []) + Pending(Apply(w, s), p, id)
         == Pending(w, p, id) + (if s.Begin? && s.p == p && !w.data.closed && id in w.data.subs then [s.event] else [])
  {
  }

  /** Every registered subscriber is offered every published event exactly once, in publish order. */
  lemma {:induction false} EveryOfferMade(run: seq<Step>, p: nat, id: nat)
    requires Valid(run)
    ensures OfferedTo(run, p, id) + Pending(After(run), p, id) == DueTo(run, p, id)
    decreases |run|
  {
    if run != [] {
      var s, w := Last(run), After(Init(run));
      EveryOfferMade(Init(run), p, id);
      PendingStep(w, s, p, id);
      var o, d := OfferedTo(Init(run), p, id), DueTo(Init(run), p, id);
      var x := if s == Offer(p, id) then [w.flights[p].event] else [];
      var y := if s.Begin? && s.p == p && !w.data.closed && id in w.data.subs then [s.event] else [];
      Regroup(o, x, Pending(After(run), p, id), Pending(w, p, id), y);
      assert d + y == (o + Pending(w, p, id)) + y;
    }
  }

  lemma Regroup<T>(a: seq<T>, b: seq<T>, c: seq<T>, d: seq<T>, e: seq<T>)
    requires b + c == d + e
    ensures (a + b) + c == (a + d) + e
  {
    assert (a + b) + c == a + (b + c);
    assert (a + d) + e == a + (d + e);
  }

  /** Offers are accepted or dropped, and nothing else happens to them. */
  lemma {:induction false} OffersConserved(run: seq<Step>, p: nat, id: nat)
    requires Valid(run)
    ensures |OfferedTo(run, p, id)| == |AcceptedFrom(run, p, id)| + DroppedFrom(run, p, id)
    ensures Subsequence(AcceptedFrom(run, p, id), OfferedTo(run, p, id))
    decreases |run|
  {
    if run != [] {
      var s, w := Last(run), After(Init(run));
      OffersConserved(Init(run), p, id);
      var a, o := AcceptedFrom(Init(run), p, id), OfferedTo(Init(run), p, id);
      if s == Offer(p, id) {
        var e := w.flights[p].event;
        if Accepts(w, s, id) { TakeBoth(a, o, e); } else { Skip(a, o, e); assert a + [] == a; }
      } else {
        assert a + [] == a && o + [] == o;
      }
    }
  }

  /** The exposed counter is the number of drops, modulo its width. */
  lemma {:induction false} CounterCountsDrops(run: seq<Step>)
    requires Valid(run)
    ensures After(run).data.dropped == Drops(run) % COUNTER
    decreases |run|
  {
    if run != [] {
      CounterCountsDrops(Init(run));
      var s, w := Last(run), After(Init(run));
      if s.Offer? && !Accepts(w, s, s.id) {
        WrapAdd(0, Drops(Init(run)));
      }
    }
  }

  /** A consumer has received, in order, what its channel accepted, except what is still buffered. */
  lemma {:induction false} ChannelIsFifo(run: seq<Step>, id: nat)
    requires Valid(run)
    ensures id in After(run).data.channels ==>
      Accepted(run, id) == Received(run, id) + After(run).data.channels[id].queue
    ensures id !in After(run).data.channels ==> Accepted(run, id) == [] && Received(run, id) == []
    decreases |run|
  {
    if run != [] {
      ChannelIsFifo(Init(run), id);
      FifoStep(After(Init(run)), Last(run), id, Accepted(Init(run), id), Received(Init(run), id));
    }
  }

  ghost function QueueOf(w: World, id: nat): (q: seq<Event>) {
    if id in w.data.channels then w.data.channels[id].queue else []
  }

  lemma FifoStep(w: World, s: Step, id: nat, accepted: seq<Event>, received: seq<Event>)
    requires Good(w) && Enabled(w, s) && !Panics(w, s) && accepted == received + QueueOf(w, id)
    ensures accepted + (if Accepts(w, s, id) then [w.flights[s.p].event] else [])
         == received + (if s == Receive(id) then [w.data.channels[id].queue[0]] else []) + QueueOf(Apply(w, s), id)
  {
    if s == Receive(id) {
      var q := w.data.channels[id].queue;
      assert q == [q[0]] + q[1..];
      assert received + [q[0]] + q[1..] == received + q;
    } else if Accepts(w, s, id) {
      assert QueueOf(Apply(w, s), id) == QueueOf(w, id) + [w.flights[s.p].event];
    } else {
      assert QueueOf(Apply(w, s), id) == QueueOf(w, id);
    }
  }

  // ----- publish order -----

  /** xs is ys with some elements left out. */
  ghost predicate Subsequence<T(!new)>(xs: seq<T>, ys: seq<T>)
    decreases |ys|
  {
    if xs == [] then true
    else if ys == [] then false
    else (Last(xs) == Last(ys) && Subsequence(Init(xs), Init(ys))) || Subsequence(xs, Init(ys))
  }

  lemma TakeBoth<T(!new)>(xs: seq<T>, ys: seq<T>, e: T)
    requires Subsequence(xs, ys)
    ensures Subsequence(xs + [e], ys + [e])
  {
    assert Init(xs + [e]) == xs && Init(ys + [e]) == ys;
  }

  lemma Skip<T(!new)>(xs: seq<T>, ys: seq<T>, e: T)
    requires Subsequence(xs, ys)
    ensures Subsequence(xs, ys + [e])
  {
    assert Init(ys + [e]) == ys;
  }

  lemma {:induction false} DropEnd<T(!new)>(xs: seq<T>, ys: seq<T>, zs: seq<T>)
    requires Subsequence(xs, ys)
    ensures Subsequence(xs, ys + zs)
    decreases |zs|
  {
    if zs == [] {
      assert ys + zs == ys;
    } else {
      DropEnd(xs, ys, Init(zs));
      Skip(xs, ys + Init(zs), Last(zs));
      assert ys + Init(zs) + [Last(zs)] == ys + zs;
    }
  }

  lemma {:induction false} Transitive<T(!new)>(xs: seq<T>, ys: seq<T>, zs: seq<T>)
    requires Subsequence(xs, ys) && Subsequence(ys, zs)
    ensures Subsequence(xs, zs)
    decreases |ys| + |zs|
  {
    if xs != [] {
      if Last(ys) == Last(zs) && Subsequence(Init(ys), Init(zs)) {
        if Last(xs) == Last(ys) && Subsequence(Init(xs), Init(ys)) {
          Transitive(Init(xs), Init(ys), Init(zs));
        } else {
          Transitive(xs, Init(ys), Init(zs));
        }
      } else {
        Transitive(xs, ys, Init(zs));
      }
    }
  }

  lemma {:induction false} DueIsPublished(run: seq<Step>, p: nat, id: nat)
    requires Valid(run)
    ensures Subsequence(DueTo(run, p, id), PublishedBy(run, p))
    decreases |run|
  {
    if run != [] {
      DueIsPublished(Init(run), p, id);
      var s, w := Last(run), After(Init(run));
      var d, q := DueTo(Init(run), p, id), PublishedBy(Init(run), p);
      assert d + [] == d && q + [] == q;
      if s.Begin? && s.p == p && !w.data.closed {
        if id in w.data.subs { TakeBoth(d, q, s.event); } else { Skip(d, q, s.event); }
      }
    }
  }

  /** With any number of publishers, a subscriber accepts each one's events in that one's order. */
  lemma PublisherOrderKept(run: seq<Step>, p: nat, id: nat)
    requires Valid(run)
    ensures Subsequence(AcceptedFrom(run, p, id), PublishedBy(run, p))
  {
    OffersConserved(run, p, id);
    EveryOfferMade(run, p, id);
    DueIsPublished(run, p, id);
    DropEnd(AcceptedFrom(run, p, id), OfferedTo(run, p, id), Pending(After(run), p, id));
    Transitive(AcceptedFrom(run, p, id), DueTo(run, p, id), PublishedBy(run, p));
  }

  ghost predicate OnlyPublisher(run: seq<Step>, p: nat) {
    forall i :: 0 <= i < |run| && run[i].Begin? ==> run[i].p == p
  }

  lemma {:induction false} OneFlight(run: seq<Step>, p: nat, q: nat)
    requires Valid(run) && OnlyPublisher(run, p) && q in After(run).flights
    ensures q == p
    decreases |run|
  {
    if run != [] {
      var s, w := Last(run), After(Init(run));
      assert OnlyPublisher(Init(run), p);
      if q in w.flights {
        OneFlight(Init(run), p, q);
      } else {
        assert s.Begin? && s.p == q && run[|run| - 1] == s;
      }
    }
  }

  lemma {:induction false} AllFromOne(run: seq<Step>, p: nat, id: nat)
    requires Valid(run) && OnlyPublisher(run, p)
    ensures Accepted(run, id) == AcceptedFrom(run, p, id)
    decreases |run|
  {
    if run != [] {
      assert OnlyPublisher(Init(run), p);
      AllFromOne(Init(run), p, id);
      var s, w := Last(run), After(Init(run));
      if Accepts(w, s, id) { OneFlight(Init(run), p, s.p); }
    }
  }

  /** Under a single publisher, each subscriber receives a subsequence of what was published. */
  lemma SingleFileOrder(run: seq<Step>, p: nat, id: nat)
    requires Valid(run) && OnlyPublisher(run, p)
    ensures Subsequence(Received(run, id) + QueueOf(After(run), id), PublishedBy(run, p))
  {
    AllFromOne(run, p, id);
    PublisherOrderKept(run, p, id);
    ChannelIsFifo(run, id);
  }

  // ----- subscribing after Close -----

  /** A subscription made after Close is open until it unsubscribes, yet is never offered anything. */
  lemma {:induction false} LateSubscriber(run: seq<Step>, n: nat, p: nat, id: nat)
    requires Valid(run) && n < |run| && At(run, n).data.closed
    requires run[n].Subscribe? && run[n].id == id
    ensures After(run).data.closed && id in After(run).data.channels && OfferedTo(run, p, id) == []
    ensures Open(After(run).data, id) <==> forall i :: n < i < |run| ==> run[i] != Unsubscribe(id)
    decreases |run|
  {
    if n == |run| - 1 {
      assert run[..n] == Init(run);
      NothingOffered(Init(run), p, id);
    } else {
      AtInit(run, n);
      LateSubscriber(Init(run), n, p, id);
      LateStep(After(Init(run)), Last(run), id);
      assert forall i :: n < i < |run| - 1 ==> run[i] == Init(run)[i];
    }
  }

  lemma {:induction false} NothingOffered(run: seq<Step>, p: nat, id: nat)
    requires Valid(run) && id !in After(run).data.channels
    ensures OfferedTo(run, p, id) == []
    decreases |run|
  {
    if run != [] {
      var s, w := Last(run), After(Init(run));
      ChannelsGrow(w, s);
      NothingOffered(Init(run), p, id);
    }
  }

  lemma ChannelsGrow(w: World, s: Step)
    requires Good(w) && Enabled(w, s) && !Panics(w, s)
    ensures w.data.channels.Keys <= Apply(w, s).data.channels.Keys
    ensures s.Offer? ==> s.id in w.data.channels
  {
  }

  lemma LateStep(w: World, s: Step, id: nat)
    requires Good(w) && Enabled(w, s) && !Panics(w, s) && w.data.closed && id in w.data.channels
    ensures Apply(w, s).data.closed && !s.Offer?
    ensures Open(Apply(w, s).data, id) <==> Open(w.data, id) && s != Unsubscribe(id)
  {
  }
}
