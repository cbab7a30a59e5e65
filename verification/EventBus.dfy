/** The in-process event bus: one channel per subscriber, publishing never blocks. A
    subscription is named by a number; sending on or closing a closed channel is a panic, so
    both need an open one. */
module EventBus {
  import opened Model

  const DEFAULT_BUFFER := 1024
  const COUNTER := 0x1_0000_0000_0000_0000

  datatype Channel = Channel(cap: nat, queue: seq<Event>, open: bool)

  datatype Data = Data(channels: map<nat, Channel>, subs: set<nat>, closed: bool, dropped: nat)

  const EMPTY := Data(map[], {}, false, 0)

  predicate Open(d: Data, id: nat) {
    id in d.channels && d.channels[id].open
  }

  predicate Full(c: Channel) {
    |c.queue| >= c.cap
  }

  /** A subscription is registered exactly when its channel is open. */
  ghost predicate Consistent(d: Data) {
    && (forall id :: id in d.subs <==> Open(d, id))
    && (forall id :: id in d.channels ==> 0 < d.channels[id].cap && |d.channels[id].queue| <= d.channels[id].cap)
  }

  // ----- single steps -----

  /** A non-blocking send. */
  function Offered(d: Data, id: nat, e: Event): (d': Data)
    requires Open(d, id)
  {
    var c := d.channels[id];
    if Full(c) then d.(dropped := (d.dropped + 1) % COUNTER)
    else d.(channels := d.channels[id := c.(queue := c.queue + [e])])
  }

  function Subscribed(d: Data, id: nat, buffer: int): (d': Data) {
    var cap := if buffer <= 0 then DEFAULT_BUFFER else buffer;
    d.(channels := d.channels[id := Channel(cap, [], true)], subs := d.subs + {id})
  }

  function ChannelClosed(d: Data, id: nat): (d': Data)
    requires Open(d, id)
  {
    d.(channels := d.channels[id := d.channels[id].(open := false)], subs := d.subs - {id})
  }

  function Removed(d: Data, id: nat): (d': Data)
    requires id in d.subs ==> Open(d, id)
  {
    if id in d.subs then ChannelClosed(d, id) else d
  }

  /** These channels closed, together. */
  function AllClosed(d: Data, ids: set<nat>): (d': Data) {
    d.(channels := map id | id in d.channels ::
         if id in ids then d.channels[id].(open := false) else d.channels[id],
       subs := d.subs - ids)
  }

  function BusClosed(d: Data): (d': Data) {
    if d.closed then d else AllClosed(d, d.subs).(closed := true)
  }

  function FullAmong(d: Data, ids: set<nat>): (r: set<nat>) {
    set id | id in ids && id in d.channels && Full(d.channels[id])
  }

  /** Every one of these subscribers offered the event: those with room have it, the others are counted. */
  function Published(d: Data, ids: set<nat>, e: Event): (d': Data) {
    d.(channels := map id | id in d.channels ::
         var c := d.channels[id]; if id in ids && !Full(c) then c.(queue := c.queue + [e]) else c,
       dropped := (d.dropped + |FullAmong(d, ids)|) % COUNTER)
  }

  // ----- what every step keeps -----

  lemma OfferKeeps(d: Data, id: nat, e: Event)
    requires Consistent(d) && Open(d, id)
    ensures Consistent(Offered(d, id, e))
  {
  }

  lemma SubscribeKeeps(d: Data, id: nat, buffer: int)
    requires Consistent(d) && id !in d.channels
    ensures Consistent(Subscribed(d, id, buffer))
  {
  }

  lemma RemoveKeeps(d: Data, id: nat)
    requires Consistent(d)
    ensures Consistent(Removed(d, id))
  {
  }

  lemma AllClosedKeeps(d: Data, ids: set<nat>)
    requires Consistent(d)
    ensures Consistent(AllClosed(d, ids))
  {
  }

  lemma CloseKeeps(d: Data)
    requires Consistent(d)
    ensures Consistent(BusClosed(d))
  {
    AllClosedKeeps(d, d.subs);
  }

  /** Offering one more subscriber extends a partial fan-out. */
  lemma PublishStep(d: Data, ids: set<nat>, id: nat, e: Event)
    requires id !in ids && Open(d, id)
    ensures Open(Published(d, ids, e), id)
    ensures Offered(Published(d, ids, e), id, e) == Published(d, ids + {id}, e)
  {
    var before, after := FullAmong(d, ids), FullAmong(d, ids + {id});
    if Full(d.channels[id]) {
      assert after == before + {id};
      WrapAdd(d.dropped, |before|);
    } else {
      assert after == before;
    }
    assert Offered(Published(d, ids, e), id, e).channels == Published(d, ids + {id}, e).channels;
  }

  lemma WrapAdd(n: nat, k: nat)
    ensures ((n + k) % COUNTER + 1) % COUNTER == (n + (k + 1)) % COUNTER
  {
  }

  lemma PublishKeeps(d: Data, ids: set<nat>, e: Event)
    requires Consistent(d)
    ensures Consistent(Published(d, ids, e))
  {
  }

  lemma PublishNone(d: Data, e: Event)
    requires d.dropped < COUNTER
    ensures Published(d, {}, e) == d
  {
    assert FullAmong(d, {}) == {};
    assert Published(d, {}, e).channels == d.channels;
  }

  lemma CloseNone(d: Data)
    ensures AllClosed(d, {}) == d
  {
    assert AllClosed(d, {}).channels == d.channels;
  }

  /** Closing one more channel extends a partial close. */
  lemma CloseStep(d: Data, ids: set<nat>, id: nat)
    requires id !in ids && Open(d, id)
    ensures Open(AllClosed(d, ids), id)
    ensures ChannelClosed(AllClosed(d, ids), id) == AllClosed(d, ids + {id})
  {
    assert ChannelClosed(AllClosed(d, ids), id).channels == AllClosed(d, ids + {id}).channels;
    assert d.subs - ids - {id} == d.subs - (ids + {id});
  }

  // ----- the bus -----

  datatype Outcome = Delivered | Cancelled | ErrClosed

  class InProc {
    var channels: map<nat, Channel>
    var subs: set<nat>
    var closed: bool
    var dropped: nat
    /** Subscriptions whose Unsubscribe has run its once. */
    var released: set<nat>

    ghost function State(): (d: Data)
      reads this
    {
      Data(channels, subs, closed, dropped)
    }

    ghost predicate Valid()
      reads this
    {
      Consistent(State()) && dropped < COUNTER && subs !! released
    }

    constructor ()
      ensures Valid() && State() == EMPTY && released == {}
    {
      channels, subs, closed, dropped, released := map[], {}, false, 0, {};
    }

    method Publish(cancelled: bool, event: Event) returns (r: Outcome)
      requires Valid()
      modifies this`channels, this`dropped
      ensures Valid()
      ensures r == (if cancelled then Cancelled else if closed then ErrClosed else Delivered)
      ensures State() == if r == Delivered then Published(old(State()), subs, event) else old(State())
    {
      if cancelled { return Cancelled; }
      if closed { return ErrClosed; }
      FanOut(event);
      return Delivered;
    }

    method FanOut(event: Event)
      requires Valid()
      modifies this`channels, this`dropped
      ensures Valid() && State() == Published(old(State()), subs, event)
    {
      ghost var before := State();
      ghost var done: set<nat> := {};
      var left := subs;
      PublishNone(before, event);
      while left != {}
        invariant done !! left && done + left == subs == before.subs
        invariant State() == Published(before, done, event)
        decreases |left|
      {
        var id :| id in left;
        assert Open(before, id);
        PublishStep(before, done, id, event);
        Send(id, event);
        left, done := left - {id}, done + {id};
      }
      assert done == subs;
      PublishKeeps(before, subs, event);
    }

    method Send(id: nat, event: Event)
      requires Open(State(), id)
      modifies this`channels, this`dropped
      ensures State() == Offered(old(State()), id, event)
    {
      if |channels[id].queue| < channels[id].cap {
        channels := channels[id := channels[id].(queue := channels[id].queue + [event])];
      } else {
        dropped := (dropped + 1) % COUNTER;
      }
    }

    method Subscribe(id: nat, buffer: int)
      requires Valid() && id !in channels && id !in released
      modifies this`channels, this`subs
      ensures Valid() && State() == Subscribed(old(State()), id, buffer)
    {
      SubscribeKeeps(State(), id, buffer);
      var cap := buffer;
      if cap <= 0 { cap := DEFAULT_BUFFER; }
      channels := channels[id := Channel(cap, [], true)];
      subs := subs + {id};
    }

    method Remove(id: nat)
      requires Valid()
      modifies this`channels, this`subs
      ensures Valid() && State() == Removed(old(State()), id)
    {
      RemoveKeeps(State(), id);
      if id in subs {
        CloseChannel(id);
      }
    }

    method Close()
      requires Valid()
      modifies this`channels, this`subs, this`closed
      ensures Valid() && State() == BusClosed(old(State()))
    {
      CloseKeeps(State());
      if closed { return; }
      closed := true;
      ghost var before := State();
      ghost var done: set<nat> := {};
      CloseNone(before);
      while subs != {}
        invariant done !! subs && done + subs == before.subs
        invariant State() == AllClosed(before, done)
        decreases |subs|
      {
        var id :| id in subs;
        assert Open(before, id);
        CloseStep(before, done, id);
        CloseChannel(id);
        done := done + {id};
      }
      assert done == before.subs;
    }

    method CloseChannel(id: nat)
      requires Open(State(), id)
      modifies this`channels, this`subs
      ensures State() == ChannelClosed(old(State()), id)
    {
      subs := subs - {id};
      channels := channels[id := channels[id].(open := false)];
    }

    /** Runs once per subscription; a second call, or one after Close, changes nothing. */
    method Unsubscribe(id: nat)
      requires Valid()
      modifies this`channels, this`subs, this`released
      ensures Valid() && State() == Removed(old(State()), id) && id !in subs
      ensures released == old(released) + {id}
    {
      if id !in released {
        Remove(id);
        released := released + {id};
      }
    }
  }
}
