/**
  Bounded, non-blocking fan-out.  A subscription's stream is specified by the operations
  applied to it; the broadcaster's objects are proved to follow that specification.
 */
module Fanout {
  import opened Wrappers

  datatype Key = Key(name: string)

  datatype Event = Event(id: nat)

  datatype Gap = Overflow(maxPending: nat) | Reset(code: string)

  datatype Item = Value(event: Event) | Signal

  // ---- One stream: its fields, and what the consumer has received ----

  datatype Stream = Stream(queue: seq<Item>, closed: bool, terminalError: Option<Gap>)

  datatype Received = Pending | Received(event: Event) | Raised(gap: Gap) | Stopped | InvalidSignal

  datatype Op =
    | Offer(event: Event)                    // an initial or a published event
    | Fail(gap: Gap, discardPending: bool)
    | Next                                   // one receive; on an empty queue it stays pending
    | Close                                  // `aclose`, or a cancelled receive

  const EMPTY := Stream([], false, None)

  predicate Live(s: Stream) { !s.closed && s.terminalError.None? }

  function Failed(s: Stream, gap: Gap, discardPending: bool): Stream {
    if !Live(s) then s
    else Stream((if discardPending then [] else s.queue) + [Signal], s.closed, Some(gap))
  }

  function Offered(s: Stream, event: Event, maxPending: nat): Stream {
    if !Live(s) then s
    else if |s.queue| >= maxPending then Failed(s, Overflow(maxPending), true)
    else s.(queue := s.queue + [Value(event)])
  }

  function Receive(s: Stream): (Stream, Received) {
    if s.closed then (s, Stopped)
    else if s.queue == [] then (s, Pending)
    else
      var rest := s.(queue := s.queue[1..]);
      match s.queue[0]
      case Value(event) => (rest, Received(event))
      case Signal =>
        (rest.(closed := true, terminalError := None),
         if s.terminalError.Some? then Raised(s.terminalError.value) else InvalidSignal)
  }

  function Apply(s: Stream, op: Op, maxPending: nat): (Stream, Received) {
    match op
    case Offer(event) => (Offered(s, event, maxPending), Pending)
    case Fail(gap, discardPending) => (Failed(s, gap, discardPending), Pending)
    case Next => Receive(s)
    case Close => (s.(closed := true), Pending)
  }

  function Run(ops: seq<Op>, maxPending: nat): Stream {
    if ops == [] then EMPTY else Apply(Run(ops[..|ops| - 1], maxPending), ops[|ops| - 1], maxPending).0
  }

  /** Everything offered to the stream: its initial events and all that was published for its key since. */
  function AllOffered(ops: seq<Op>): seq<Event> {
    if ops == [] then []
    else AllOffered(ops[..|ops| - 1]) + (if ops[|ops| - 1].Offer? then [ops[|ops| - 1].event] else [])
  }

  /** The events that the consumer has received. */
  function Consumed(ops: seq<Op>, maxPending: nat): seq<Event> {
    if ops == [] then []
    else
      var received := Apply(Run(ops[..|ops| - 1], maxPending), ops[|ops| - 1], maxPending).1;
      Consumed(ops[..|ops| - 1], maxPending) + (if received.Received? then [received.event] else [])
  }

  function Events(queue: seq<Item>): seq<Event> {
    if queue == [] then []
    else (if queue[0].Value? then [queue[0].event] else []) + Events(queue[1..])
  }

  /** Only events, or events followed by the one terminal signal. */
  predicate WellQueued(s: Stream) {
    && (forall i | 0 <= i < |s.queue| - 1 :: s.queue[i].Value?)
    && (!s.closed && s.queue != [] ==> (s.queue[|s.queue| - 1].Signal? <==> s.terminalError.Some?))
    && (!s.closed && s.terminalError.Some? ==> s.queue != [])
  }

  predicate IsPrefix(a: seq<Event>, b: seq<Event>) { |a| <= |b| && a == b[..|a|] }

  ghost predicate StreamInv(s: Stream, offered: seq<Event>, consumed: seq<Event>, maxPending: nat) {
    && WellQueued(s)
    && |s.queue| <= maxPending + 1
    && (Live(s) ==> consumed + Events(s.queue) == offered && |s.queue| <= maxPending)
    && (!s.closed ==> IsPrefix(consumed + Events(s.queue), offered))
    && IsPrefix(consumed, offered)
  }

  lemma {:induction false} EventsOfAppend(queue: seq<Item>, item: Item)
    ensures Events(queue + [item]) == Events(queue) + (if item.Value? then [item.event] else [])
  {
    if queue != [] {
      EventsOfAppend(queue[1..], item);
      assert (queue + [item])[1..] == queue[1..] + [item];
    }
  }

  lemma OfferKeeps(s: Stream, event: Event, offered: seq<Event>, consumed: seq<Event>, maxPending: nat)
    requires StreamInv(s, offered, consumed, maxPending)
    ensures StreamInv(Offered(s, event, maxPending), offered + [event], consumed, maxPending)
  {
    EventsOfAppend(s.queue, Value(event));
    assert (offered + [event])[..|offered|] == offered;
    assert Events([Signal]) == [];
    if Live(s) && |s.queue| < maxPending {
      assert consumed + Events(s.queue + [Value(event)]) == offered + [event];
    }
  }

  lemma FailKeeps(s: Stream, gap: Gap, discardPending: bool, offered: seq<Event>, consumed: seq<Event>, maxPending: nat)
    requires StreamInv(s, offered, consumed, maxPending)
    ensures StreamInv(Failed(s, gap, discardPending), offered, consumed, maxPending)
  {
    EventsOfAppend(s.queue, Signal);
    assert Events([Signal]) == [];
    assert [] + [Signal] == [Signal];
  }

  lemma ReceiveKeeps(s: Stream, offered: seq<Event>, consumed: seq<Event>, maxPending: nat)
    requires StreamInv(s, offered, consumed, maxPending)
    ensures var (after, received) := Receive(s);
            && received != InvalidSignal
            && StreamInv(after, offered, consumed + (if received.Received? then [received.event] else []), maxPending)
  {
    if !s.closed && s.queue != [] && s.queue[0].Value? {
      assert consumed + Events(s.queue) == (consumed + [s.queue[0].event]) + Events(s.queue[1..]);
      assert IsPrefix(consumed + [s.queue[0].event], offered);
    }
  }

  lemma ApplyKeeps(s: Stream, op: Op, offered: seq<Event>, consumed: seq<Event>, maxPending: nat)
    requires StreamInv(s, offered, consumed, maxPending)
    ensures var (after, received) := Apply(s, op, maxPending);
            StreamInv(after, offered + (if op.Offer? then [op.event] else []),
                      consumed + (if received.Received? then [received.event] else []), maxPending)
  {
    assert offered + [] == offered && consumed + [] == consumed;
    match op
    case Offer(event) => OfferKeeps(s, event, offered, consumed, maxPending);
    case Fail(gap, discardPending) => FailKeeps(s, gap, discardPending, offered, consumed, maxPending);
    case Next => ReceiveKeeps(s, offered, consumed, maxPending);
    case Close =>
  }

  lemma {:induction false} RunKeeps(ops: seq<Op>, maxPending: nat)
    ensures StreamInv(Run(ops, maxPending), AllOffered(ops), Consumed(ops, maxPending), maxPending)
    decreases |ops|
  {
    if ops != [] {
      var before := ops[..|ops| - 1];
      RunKeeps(before, maxPending);
      ApplyKeeps(Run(before, maxPending), ops[|ops| - 1], AllOffered(before), Consumed(before, maxPending), maxPending);
    }
  }

  lemma RunOfAppend(ops: seq<Op>, op: Op, maxPending: nat)
    ensures Run(ops + [op], maxPending) == Apply(Run(ops, maxPending), op, maxPending).0
    ensures var received := Apply(Run(ops, maxPending), op, maxPending).1;
            Consumed(ops + [op], maxPending)
            == Consumed(ops, maxPending) + (if received.Received? then [received.event] else [])
  {
    assert (ops + [op])[..|ops|] == ops;
  }

  /**
    Nothing is lost silently.  While a stream is live, what was consumed followed by what is queued is
    exactly what was offered.  What was consumed is always a prefix of what was offered, and a stream
    that is neither live nor closed still holds the terminal error behind a prefix.
   */
  lemma NothingIsLostSilently(ops: seq<Op>, maxPending: nat)
    ensures var s := Run(ops, maxPending);
            && (Live(s) ==> Consumed(ops, maxPending) + Events(s.queue) == AllOffered(ops) && |s.queue| <= maxPending)
            && IsPrefix(Consumed(ops, maxPending), AllOffered(ops))
            && (!s.closed && s.terminalError.Some? ==>
                  && s.queue != [] && s.queue[|s.queue| - 1].Signal?
                  && IsPrefix(Consumed(ops, maxPending) + Events(s.queue), AllOffered(ops)))
            && |s.queue| <= maxPending + 1
  {
    RunKeeps(ops, maxPending);
  }

  /** What a consumer gets that keeps receiving until it has to wait or the stream ends. */
  function Drain(s: Stream): (seq<Event>, Received)
    decreases |s.queue|
  {
    var (after, received) := Receive(s);
    if received.Received? then
      var (more, last) := Drain(after);
      ([received.event] + more, last)
    else ([], received)
  }

  lemma {:induction false} DrainYieldsQueue(s: Stream)
    requires WellQueued(s) && !s.closed
    ensures Drain(s) == (Events(s.queue), if s.terminalError.Some? then Raised(s.terminalError.value) else Pending)
    decreases |s.queue|
  {
    if s.queue != [] {
      var rest := s.(queue := s.queue[1..]);
      if s.queue[0].Value? {
        DrainYieldsQueue(rest);
      } else {
        assert Events(s.queue) == Events(s.queue[1..]) == [];
      }
    }
  }

  /**
    A consumer that keeps receiving from a failed stream gets a prefix of what was offered and then exactly the
    terminal error.
   */
  lemma FailureIsDelivered(ops: seq<Op>, maxPending: nat)
    requires !Run(ops, maxPending).closed && Run(ops, maxPending).terminalError.Some?
    ensures var (events, last) := Drain(Run(ops, maxPending));
            && last == Raised(Run(ops, maxPending).terminalError.value)
            && IsPrefix(Consumed(ops, maxPending) + events, AllOffered(ops))
  {
    RunKeeps(ops, maxPending);
    DrainYieldsQueue(Run(ops, maxPending));
  }

  // ---- The objects ----

  class FanoutSubscription {
    const key: Key
    const maxPending: nat
    var queue: seq<Item>
    var closed: bool
    var terminalError: Option<Gap>
    ghost var ops: seq<Op>   // the operations applied so far

    constructor (key: Key, maxPending: nat)
      ensures this.key == key && this.maxPending == maxPending && State() == EMPTY && ops == []
    {
      this.key, this.maxPending := key, maxPending;
      queue, closed, terminalError, ops := [], false, None, [];
    }

    function State(): Stream
      reads this
    {
      Stream(queue, closed, terminalError)
    }

    /** The fields are what the operations make of them. */
    ghost predicate Follows()
      reads this
    {
      State() == Run(ops, maxPending)
    }

    /** Whether the broadcaster must drop the subscription is what the close callback would be called for. */
    method Publish(event: Event) returns (drop: bool)
      requires Follows()
      modifies this
      ensures Follows() && ops == old(ops) + [Offer(event)]
      ensures State() == Offered(old(State()), event, maxPending)
      ensures drop <==> Live(old(State())) && !Live(State())
    {
      RunOfAppend(ops, Offer(event), maxPending);
      ops := ops + [Offer(event)];
      drop := OfferEvent(event);
    }

    method OfferEvent(event: Event) returns (drop: bool)
      modifies this`queue, this`terminalError
      ensures State() == Offered(old(State()), event, maxPending)
      ensures drop <==> Live(old(State())) && !Live(State())
    {
      drop := false;
      if closed || terminalError.Some? {
        return;
      }
      if |queue| >= maxPending {
        terminalError := Some(Overflow(maxPending));
        queue := [] + [Signal];
        drop := true;
      } else {
        queue := queue + [Value(event)];
      }
    }

    /** A stream that is no longer live misses what is published for its key; only the history records it. */
    ghost method MissOffer(event: Event)
      requires Follows() && !Live(State())
      modifies this`ops
      ensures Follows() && ops == old(ops) + [Offer(event)]
    {
      RunOfAppend(ops, Offer(event), maxPending);
      ops := ops + [Offer(event)];
    }

    method FailWith(gap: Gap, discardPending: bool) returns (drop: bool)
      requires Follows()
      modifies this
      ensures Follows() && ops == old(ops) + [Fail(gap, discardPending)]
      ensures State() == Failed(old(State()), gap, discardPending)
      ensures drop <==> Live(old(State()))
    {
      RunOfAppend(ops, Fail(gap, discardPending), maxPending);
      ops := ops + [Fail(gap, discardPending)];
      drop := !closed && terminalError.None?;
      if drop {
        if discardPending {
          queue := [];
        }
        terminalError := Some(gap);
        queue := queue + [Signal];
      }
    }

    /** One receive of the consumer. */
    method TakeNext() returns (received: Received)
      requires Follows()
      modifies this
      ensures Follows() && ops == old(ops) + [Next]
      ensures (State(), received) == Receive(old(State()))
    {
      RunOfAppend(ops, Next, maxPending);
      ops := ops + [Next];
      if closed { return Stopped; }
      if queue == [] { return Pending; }
      var item := queue[0];
      queue := queue[1..];
      if item.Value? { return Received(item.event); }
      var error := terminalError;
      terminalError := None;
      closed := true;
      received := if error.Some? then Raised(error.value) else InvalidSignal;
    }

    /** `aclose`, which is also what a cancelled receive does. */
    method CloseStream() returns (drop: bool)
      requires Follows()
      modifies this
      ensures Follows() && ops == old(ops) + [Close]
      ensures State() == old(State()).(closed := true)
      ensures drop <==> !old(closed)
    {
      RunOfAppend(ops, Close, maxPending);
      ops := ops + [Close];
      drop := !closed;
      closed := true;
    }
  }

  type Table = map<Key, set<FanoutSubscription>>

  predicate InTable(table: Table, s: FanoutSubscription) { s.key in table && s in table[s.key] }

  function With(table: Table, s: FanoutSubscription): Table {
    table[s.key := (if s.key in table then table[s.key] else {}) + {s}]
  }

  /** Dropping the last subscription of a key drops the key. */
  function Without(table: Table, s: FanoutSubscription): Table {
    if s.key !in table then table
    else if table[s.key] - {s} == {} then table - {s.key}
    else table[s.key := table[s.key] - {s}]
  }

  /** Every set is non-empty and holds only subscriptions of its key. */
  ghost predicate WellKeyed(table: Table, all: set<FanoutSubscription>) {
    forall k | k in table :: table[k] != {} && forall s | s in table[k] :: s in all && s.key == k
  }

  lemma WithoutKeeps(table: Table, all: set<FanoutSubscription>, s: FanoutSubscription)
    requires WellKeyed(table, all)
    ensures WellKeyed(Without(table, s), all) && !InTable(Without(table, s), s)
    ensures forall t | t in all && t != s :: InTable(Without(table, s), t) <==> InTable(table, t)
  {
    forall t | t in all && t != s && InTable(table, t) ensures InTable(Without(table, s), t) {
      if t.key == s.key { assert t in table[s.key] - {s}; }
    }
  }

  lemma KeysAreInUse(table: Table, all: set<FanoutSubscription>)
    requires WellKeyed(table, all)
    ensures forall k | k in table :: exists s | s in all :: s.key == k && InTable(table, s)
  {
    forall k | k in table ensures exists s | s in all :: s.key == k && InTable(table, s) {
      var s :| s in table[k];
      assert InTable(table, s);
    }
  }

  class EventBroadcaster {
    const maxPending: nat
    var subscribers: Table
    ghost var all: set<FanoutSubscription>   // every subscription ever handed out

    constructor (maxPending: nat)
      requires maxPending >= 1
      ensures this.maxPending == maxPending && Valid() && all == {} && subscribers == map[]
    {
      this.maxPending := maxPending;
      subscribers, all := map[], {};
    }

    /** Each subscription follows its operations, and is registered exactly while it is live. */
    ghost predicate Valid()
      reads this, all
    {
      && (forall s | s in all :: s.Follows() && s.maxPending == maxPending)
      && (forall s | s in all :: InTable(subscribers, s) <==> Live(s.State()))
      && WellKeyed(subscribers, all)
    }

    /** No other subscription is touched. */
    twostate predicate OnlyTouches(new touched: set<FanoutSubscription>)
      reads this, all
    {
      && all == old(all)
      && forall s | s in all && s !in touched ::
           unchanged(s) && (InTable(subscribers, s) <==> InTable(old(subscribers), s))
    }

    method Remove(s: FanoutSubscription)
      modifies this`subscribers
      ensures subscribers == Without(old(subscribers), s)
    {
      if s.key in subscribers {
        var rest := subscribers[s.key] - {s};
        if rest == {} {
          subscribers := subscribers - {s.key};
        } else {
          subscribers := subscribers[s.key := rest];
        }
      }
    }

    method PublishOne(s: FanoutSubscription, event: Event)
      requires Valid() && s in all
      modifies s, this`subscribers
      ensures Valid() && OnlyTouches({s}) && s.ops == old(s.ops) + [Offer(event)]
    {
      WithoutKeeps(subscribers, all, s);
      var drop := s.Publish(event);
      if drop {
        Remove(s);
      }
    }

    method FailOne(s: FanoutSubscription, gap: Gap, discardPending: bool)
      requires Valid() && s in all
      modifies s, this`subscribers
      ensures Valid() && OnlyTouches({s}) && s.ops == old(s.ops) + [Fail(gap, discardPending)] && !Live(s.State())
    {
      WithoutKeeps(subscribers, all, s);
      var drop := s.FailWith(gap, discardPending);
      if drop {
        Remove(s);
      }
    }

    /** One receive on a subscription; a terminal signal ends a stream that is no longer registered. */
    method ReceiveOn(s: FanoutSubscription) returns (received: Received)
      requires Valid() && s in all
      modifies s
      ensures Valid() && OnlyTouches({s}) && s.ops == old(s.ops) + [Next]
      ensures (s.State(), received) == Receive(old(s.State()))
    {
      RunKeeps(s.ops, maxPending);
      received := s.TakeNext();
    }

    method CloseOn(s: FanoutSubscription)
      requires Valid() && s in all
      modifies s, this`subscribers
      ensures Valid() && OnlyTouches({s}) && s.ops == old(s.ops) + [Close]
    {
      WithoutKeeps(subscribers, all, s);
      var drop := s.CloseStream();
      if drop {
        Remove(s);
      }
    }

    method PublishTo(targets: set<FanoutSubscription>, event: Event)
      requires Valid() && targets <= all
      modifies this`subscribers, all
      ensures Valid() && OnlyTouches(targets)
      ensures forall s | s in targets :: s.ops == old(s.ops) + [Offer(event)]
    {
      var pending := targets;
      while pending != {}
        invariant Valid() && OnlyTouches(targets - pending) && pending <= targets
        invariant forall s | s in targets - pending :: s.ops == old(s.ops) + [Offer(event)]
        decreases pending
      {
        var s :| s in pending;
        PublishOne(s, event);
        pending := pending - {s};
      }
    }

    /** Every subscription of the key, registered or not, is offered the event; no other is touched. */
    method PublishEvent(key: Key, event: Event)
      requires Valid()
      modifies this`subscribers, all
      ensures Valid() && all == old(all)
      ensures forall s | s in all && s.key == key :: s.ops == old(s.ops) + [Offer(event)]
      ensures forall s | s in all && s.key != key :: unchanged(s)
    {
      var targets := if key in subscribers then subscribers[key] else {};
      ghost var missing := (set s | s in all && s.key == key) - targets;
      PublishTo(targets, event);
      MissOffers(missing, key, event);
    }

    ghost method MissOffers(missing: set<FanoutSubscription>, key: Key, event: Event)
      requires Valid() && missing <= all && forall s | s in missing :: s.key == key && !InTable(subscribers, s)
      modifies missing`ops
      ensures Valid()
      ensures forall s | s in missing :: s.ops == old(s.ops) + [Offer(event)]
      decreases missing
    {
      if missing != {} {
        var s :| s in missing;
        s.MissOffer(event);
        MissOffers(missing - {s}, key, event);
      }
    }

    method FailThese(targets: set<FanoutSubscription>, gap: Gap, discardPending: bool)
      requires Valid() && targets <= all
      modifies this`subscribers, all
      ensures Valid() && OnlyTouches(targets)
      ensures forall s | s in targets :: s.ops == old(s.ops) + [Fail(gap, discardPending)] && !Live(s.State())
    {
      var pending := targets;
      ghost var done: set<FanoutSubscription> := {};
      while pending != {}
        invariant Valid() && OnlyTouches(done) && done + pending == targets && done !! pending
        invariant forall s | s in done :: s.ops == old(s.ops) + [Fail(gap, discardPending)] && !Live(s.State())
        decreases pending
      {
        var s :| s in pending;
        FailOne(s, gap, discardPending);
        pending := pending - {s};
        done := done + {s};
      }
    }

    /** Every registered subscription of the key ends with the gap, and no other is touched. */
    method FailKey(key: Key, gap: Gap, discardPending: bool)
      requires Valid()
      modifies this`subscribers, all
      ensures Valid() && OnlyTouches(if key in old(subscribers) then old(subscribers)[key] else {})
      ensures key !in subscribers
      ensures forall s | s in all && s.key == key && Live(old(s.State())) ::
                s.ops == old(s.ops) + [Fail(gap, discardPending)]
    {
      var targets := if key in subscribers then subscribers[key] else {};
      FailThese(targets, gap, discardPending);
      KeysAreInUse(subscribers, all);
    }

    /** Every registered subscription ends with the gap. */
    method FailAll(gap: Gap, discardPending: bool)
      requires Valid()
      modifies this`subscribers, all
      ensures Valid() && all == old(all) && subscribers == map[]
      ensures forall s | s in all && Live(old(s.State())) :: s.ops == old(s.ops) + [Fail(gap, discardPending)]
      ensures forall s | s in all && !Live(old(s.State())) :: unchanged(s)
    {
      var targets := set k, s | k in subscribers && s in subscribers[k] :: s;
      FailThese(targets, gap, discardPending);
      KeysAreInUse(subscribers, all);
    }

    method Register(key: Key) returns (s: FanoutSubscription)
      requires Valid()
      modifies this
      ensures Valid() && fresh(s) && all == old(all) + {s} && s.key == key && s.ops == []
      ensures forall t | t in old(all) :: unchanged(t) && (InTable(subscribers, t) <==> InTable(old(subscribers), t))
    {
      s := new FanoutSubscription(key, maxPending);
      subscribers := With(subscribers, s);
      all := all + {s};
    }

    /** A new subscription starts with the initial events; if they overflow it, it starts with the overflow. */
    method Subscribe(key: Key, initial: seq<Event>) returns (s: FanoutSubscription)
      requires Valid()
      modifies this
      ensures Valid() && fresh(s) && all == old(all) + {s} && s.key == key && s.ops == Offers(initial)
      ensures forall t | t in old(all) :: unchanged(t) && (InTable(subscribers, t) <==> InTable(old(subscribers), t))
    {
      s := Register(key);
      for i := 0 to |initial|
        invariant Valid() && all == old(all) + {s} && s.ops == Offers(initial[..i])
        invariant forall t | t in old(all) ::
                    unchanged(t) && (InTable(subscribers, t) <==> InTable(old(subscribers), t))
      {
        PublishOne(s, initial[i]);
        assert initial[..i + 1][..i] == initial[..i];
      }
      assert initial[..|initial|] == initial;
    }
  }

  function Offers(events: seq<Event>): seq<Op> {
    if events == [] then [] else Offers(events[..|events| - 1]) + [Offer(events[|events| - 1])]
  }
}
