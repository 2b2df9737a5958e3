/**
  The objects of queue observation: one entry of the observer and the subscriptions on it. The
  entry's fields follow the steps of QueueObservation; its subscribers get exactly the notices of those
  steps, and all of them end with a gap once the entry has an error.
 */
module ObservationEntry {
  import Fanout
  import opened QueueObservation
  import opened QueueReceipts
  import opened Wrappers

  /** A queue slot holds a notice, or the end: a gap, or None after the consumer's own close. */
  datatype Slot = Note(notice: Notice) | End(error: Option<Gap>)

  datatype Received = Pending | Got(notice: Notice) | Raised(gap: Gap) | Stopped

  function Notes(queue: seq<Slot>): seq<Notice> {
    if queue == [] then []
    else (if queue[0].Note? then [queue[0].notice] else []) + Notes(queue[1..])
  }

  lemma {:induction false} NotesOfAppend(queue: seq<Slot>, notice: Notice)
    ensures Notes(queue + [Note(notice)]) == Notes(queue) + [notice]
  {
    if queue != [] {
      NotesOfAppend(queue[1..], notice);
      assert (queue + [Note(notice)])[1..] == queue[1..] + [Note(notice)];
    }
  }

  class QueueSubscription {
    const maxPending: nat
    var queue: seq<Slot>
    var closed: bool
    var terminal: bool
    ghost var given: seq<Notice>   // published to it while it was not terminal
    ghost var taken: seq<Notice>   // received by its consumer

    constructor (maxPending: nat)
      ensures this.maxPending == maxPending && Valid() && !terminal && given == []
    {
      this.maxPending := maxPending;
      queue, closed, terminal, given, taken := [], false, false, [], [];
    }

    /** Until the end nothing is missing; at the end only the end is left to receive. */
    ghost predicate Valid()
      reads this
    {
      && taken <= given
      && (!terminal ==> !closed && |queue| <= maxPending && taken + Notes(queue) == given
                        && forall i | 0 <= i < |queue| :: queue[i].Note?)
      && (terminal ==> if closed then queue == [] else |queue| == 1 && queue[0].End?)
    }

    ghost predicate EndedBy(gap: Gap)
      reads this
    {
      terminal && queue == [End(Some(gap))]
    }

    method Publish(notice: Notice)
      requires Valid()
      modifies this
      ensures Valid()
      ensures old(terminal) ==> unchanged(this)
      ensures !old(terminal) ==> given == old(given) + [notice] && taken == old(taken)
      ensures !old(terminal) ==> terminal == (|old(queue)| >= maxPending)
      ensures !old(terminal) && terminal ==> EndedBy(Fanout.Overflow(maxPending))
    {
      if terminal {
        return;
      }
      NotesOfAppend(queue, notice);
      given := given + [notice];
      if |queue| >= maxPending {
        var _ := Finish(Some(Fanout.Overflow(maxPending)));
      } else {
        queue := queue + [Note(notice)];
      }
    }

    /** Drops what is pending, so that the end is the next thing received; true if it was not terminal yet. */
    method Finish(error: Option<Gap>) returns (ended: bool)
      requires taken <= given && (if terminal then Valid() else !closed)
      modifies this
      ensures Valid() && terminal && ended == !old(terminal)
      ensures old(terminal) ==> unchanged(this)
      ensures given == old(given) && taken == old(taken)
      ensures ended ==> queue == [End(error)] && closed == old(closed)
    {
      ended := !terminal;
      if ended {
        terminal := true;
        while queue != []
          modifies `queue
          decreases |queue|
        {
          queue := queue[1..];
        }
        queue := queue + [End(error)];
      }
    }

    /** One receive; on an empty queue it stays pending. */
    method TakeNext() returns (received: Received)
      requires Valid()
      modifies this
      ensures Valid() && given == old(given) && terminal == old(terminal)
      ensures received.Got? ==> taken == old(taken) + [received.notice]
      ensures !received.Got? ==> taken == old(taken)
      ensures old(terminal) && !old(closed)
              ==> received == (if old(queue)[0].error.Some? then Raised(old(queue)[0].error.value) else Stopped)
      ensures received.Pending? ==> taken == given && !terminal
      ensures old(closed) ==> received == Stopped
    {
      if closed { return Stopped; }
      if queue == [] { return Pending; }
      var item := queue[0];
      assert Notes(queue) == (if item.Note? then [item.notice] else []) + Notes(queue[1..]);
      queue := queue[1..];
      if item.Note? {
        taken := taken + [item.notice];
        return Got(item.notice);
      }
      closed := true;
      received := if item.error.Some? then Raised(item.error.value) else Stopped;
    }
  }

  /** How `subscribe` ends: with the subscription, with what the installation raised, or with a gap. */
  datatype SubscribeOutcome = Subscribed | InstallRaises | GapRaised(gap: Gap)

  class QueueEntry {
    const thread: ThreadRef
    const maxPending: nat
    var entry: Entry                          // the fields that need no object
    var subscribers: set<QueueSubscription>
    var installing: bool                      // the installation task is not done
    var failed: bool                          // the installation task raised
    var registered: bool                      // the observer's table still holds this entry
    ghost var all: set<QueueSubscription>     // every subscription ever handed out

    constructor (thread: ThreadRef, maxPending: nat)
      ensures this.thread == thread && this.maxPending == maxPending && Valid() && entry == FRESH && all == {}
      ensures registered && installing && !failed
    {
      this.thread, this.maxPending := thread, maxPending;
      entry, subscribers, installing, failed, registered, all := FRESH, {}, true, false, true, {};
    }

    /** A subscription is listed exactly until it ends, and the entry leaves the table only when nobody needs it. */
    ghost predicate Valid()
      reads this, all
    {
      && (forall s | s in all :: s.Valid() && s.maxPending == maxPending && (s in subscribers <==> !s.terminal))
      && subscribers <= all
      && (!registered ==> subscribers == {} && !installing)
    }

    /** Subscriptions still open have been given exactly the notices; the others were over before or have overflowed. */
    twostate predicate Delivered(notices: seq<Notice>)
      reads this, all
    {
      OnlyOverflowed() && Given(notices)
    }

    twostate predicate OnlyOverflowed()
      reads this, all
    {
      && all == old(all) && subscribers <= old(subscribers)
      && forall s | s in all :: OpenOrOverflowed(s)
    }

    twostate predicate Given(notices: seq<Notice>)
      reads this, all
    {
      all == old(all) && forall s | s in all :: GivenTo(s, notices)
    }

    twostate predicate OpenOrOverflowed(s: QueueSubscription)
      reads s
    {
      if old(s.terminal) then unchanged(s) else s.terminal ==> s.EndedBy(Fanout.Overflow(maxPending))
    }

    twostate predicate GivenTo(s: QueueSubscription, notices: seq<Notice>)
      reads s
    {
      !s.terminal ==> s.given == old(s.given) + notices && s.taken == old(s.taken)
    }

    method Retire()
      requires Valid()
      modifies this`registered
      ensures Valid()
      ensures registered == (old(registered) && (subscribers != {} || installing))
    {
      if subscribers == {} && !installing {
        registered := false;
      }
    }

    /** A new subscription, unless the observer is closing. */
    method Subscribe(closing: bool) returns (s: Option<QueueSubscription>)
      requires Valid() && registered
      modifies this`subscribers, this`all
      ensures Valid() && (s.None? <==> closing)
      ensures closing ==> all == old(all) && subscribers == old(subscribers)
      ensures s.Some? ==> fresh(s.value) && all == old(all) + {s.value} && s.value in subscribers && s.value.given == []
      ensures forall t | t in old(all) :: unchanged(t)
    {
      if closing {
        return None;
      }
      var subscription := new QueueSubscription(maxPending);
      subscribers := subscribers + {subscription};
      all := all + {subscription};
      s := Some(subscription);
    }

    /**
      What `subscribe` does once the installation is done: it raises what the installation raised, or else
      the entry's error, or else that of a closing observer; each of them ends the new subscription.
     */
    method CompleteSubscribe(s: QueueSubscription, closing: bool) returns (outcome: SubscribeOutcome)
      requires Valid() && s in all && !installing
      modifies s, this`subscribers, this`registered
      ensures Valid() && all == old(all)
      ensures outcome == if failed then InstallRaises
                         else if entry.error.Some? then GapRaised(entry.error.value)
                         else if closing then GapRaised(Fanout.Reset("queued_input_observer_closed")) else Subscribed
      ensures if outcome.Subscribed? then unchanged(s) && subscribers == old(subscribers)
              else s.terminal && subscribers == old(subscribers) - {s}
    {
      outcome := Subscribed;
      if failed {
        outcome := InstallRaises;
      } else if entry.error.Some? {
        outcome := GapRaised(entry.error.value);
      } else if closing {
        outcome := GapRaised(Fanout.Reset("queued_input_observer_closed"));
      }
      if !outcome.Subscribed? {
        EndOne(s, None);
      }
    }

    /** `aclose`, which is also what a cancelled receive does: the consumer's own end, without a gap. */
    method CloseSubscription(s: QueueSubscription)
      requires Valid() && s in all
      modifies s, this`subscribers, this`registered
      ensures Valid() && all == old(all) && s.terminal && subscribers == old(subscribers) - {s}
      ensures if old(s.terminal) then unchanged(s) else s.queue == [End(None)] && s.given == old(s.given)
    {
      EndOne(s, None);
    }

    method PublishTo(s: QueueSubscription, notice: Notice)
      requires Valid() && s in subscribers
      modifies s, this`subscribers, this`registered
      ensures Valid() && all == old(all) && OpenOrOverflowed(s) && GivenTo(s, [notice])
      ensures forall t | t in all && t != s :: unchanged(t) && (t in subscribers <==> t in old(subscribers))
      ensures subscribers <= old(subscribers)
    {
      s.Publish(notice);
      if s.terminal {
        subscribers := subscribers - {s};
        Retire();
      }
    }

    method PublishNotice(notice: Notice)
      requires Valid()
      modifies this`subscribers, this`registered, all
      ensures Valid() && Delivered([notice])
    {
      var pending := subscribers;
      while pending != {}
        invariant Valid() && all == old(all) && pending <= subscribers <= old(subscribers)
        invariant forall s | s in all && (s in pending || s !in old(subscribers)) :: unchanged(s)
        invariant forall s | s in old(subscribers) - pending :: OpenOrOverflowed(s) && GivenTo(s, [notice])
        decreases pending
      {
        var s :| s in pending;
        PublishTo(s, notice);
        pending := pending - {s};
      }
    }

    method EndOne(s: QueueSubscription, error: Option<Gap>)
      requires Valid() && s in all
      modifies s, this`subscribers, this`registered
      ensures Valid() && all == old(all) && s.terminal && subscribers == old(subscribers) - {s}
      ensures if old(s.terminal) then unchanged(s) else s.queue == [End(error)] && s.given == old(s.given)
    {
      var ended := s.Finish(error);
      if ended {
        subscribers := subscribers - {s};
        Retire();
      }
    }

    /** The entry takes the error, and every subscriber ends with it. */
    method FailEntry(gap: Gap)
      requires Valid()
      modifies this`entry, this`subscribers, this`registered, all
      ensures Valid() && all == old(all) && entry == Fail(old(entry), gap) && subscribers == {}
      ensures forall s | s in all :: if s in old(subscribers) then s.EndedBy(gap) else unchanged(s)
    {
      entry := Fail(entry, gap);
      var pending := subscribers;
      while pending != {}
        invariant Valid() && all == old(all) && entry == Fail(old(entry), gap)
        invariant pending == subscribers <= old(subscribers)
        invariant forall s | s in all && (s in pending || s !in old(subscribers)) :: unchanged(s)
        invariant forall s | s in old(subscribers) - pending :: s.EndedBy(gap)
        decreases pending
      {
        var s :| s in pending;
        EndOne(s, Some(gap));
        pending := pending - {s};
      }
    }

    /** Publishes one change to all subscribers, unless its lineage is wrong. */
    method PublishQueueChange(change: Change) returns (raised: Option<Gap>)
      requires Valid()
      modifies this`entry, this`subscribers, this`registered, all
      ensures Valid()
      ensures var o := PublishChange(old(entry), change);
              entry == o.entry && raised == o.raised && Delivered(o.notices)
    {
      if change.client.None? {
        return None;
      }
      var client := change.client.value;
      var queued := if client in entry.queuedIds then Some(entry.queuedIds[client]) else None;
      if change.kind == ItemQueued {
        if change.queuedId.None? || (queued.Some? && queued != change.queuedId) {
          return Some(INVALID);
        }
        queued := change.queuedId;
        if client !in entry.queuedIds {
          if |entry.queuedIds| >= MAX_SNAPSHOT_ITEMS {
            return Some(Fanout.Overflow(MAX_SNAPSHOT_ITEMS));
          }
          entry := entry.(queuedIds := entry.queuedIds[client := queued.value]);
        }
      }
      if queued.None? {
        return if change.kind == MessageAdmitted then None else Some(INVALID);
      }
      if change.queuedId.Some? && change.queuedId != queued {
        return Some(INVALID);
      }
      assert entry == PublishChange(old(entry), change).entry;
      PublishNotice(NoticeOf(change, client, queued.value));
      raised := None;
    }

    method AcceptChange(change: Change) returns (raised: Option<Gap>)
      requires Valid() && entry.watermark.Some?
      modifies this`entry, this`subscribers, this`registered, all
      ensures Valid()
      ensures var o := Accept(old(entry), change);
              entry == o.entry && raised == o.raised && Delivered(o.notices)
    {
      if change.processEpoch != entry.processEpoch {
        return Some(INVALID);
      }
      if change.watermark <= entry.snapshotWatermark || entry.lastChange == Some(change) {
        return None;
      }
      if change.watermark != entry.watermark.value + 1 {
        return Some(INVALID);
      }
      entry := entry.(watermark := Some(change.watermark), lastChange := Some(change));
      raised := PublishQueueChange(change);
    }

    /** The entry is as specified, up to the fields that no operation looks at after an error. */
    ghost predicate AgreesWith(expected: Entry)
      reads this
    {
      entry.error == expected.error && (entry.error.None? ==> entry == expected)
    }

    /** Every subscriber ended with a gap, and nothing else happened to any subscription. */
    twostate predicate AllEnded()
      reads this, all
    {
      && all == old(all) && subscribers == {}
      && forall s | s in all :: EndedWithGap(s, s in old(subscribers))
    }

    twostate predicate EndedWithGap(s: QueueSubscription, subscribed: bool)
      reads s
    {
      if subscribed then exists gap :: s.EndedBy(gap) else unchanged(s)
    }

    /** A notification for this Thread: buffered until the snapshot is in, then accepted. */
    method Notification(epoch: nat, change: Option<Change>)
      requires Valid()
      modifies this`entry, this`subscribers, this`registered, all
      ensures Valid() && AgreesWith(Notify(old(entry), epoch, change, maxPending).0)
      ensures entry.error.None? ==> Delivered(Notify(old(entry), epoch, change, maxPending).1)
      ensures old(entry).error.None? && entry.error.Some? ==> AllEnded()
    {
      if entry.error.Some? || entry.epoch == 0 {
        return;
      }
      var raised: Option<Gap> := None;
      if epoch != entry.epoch || change.None? {
        raised := Some(INVALID);
      } else if entry.watermark.None? {
        if |entry.pending| >= maxPending {
          raised := Some(Fanout.Overflow(maxPending));
        } else {
          entry := entry.(pending := entry.pending + [change.value]);
        }
      } else {
        raised := AcceptChange(change.value);
      }
      if raised.Some? {
        FailEntry(raised.value);
      }
    }

    method BuildIndex(items: seq<Item>) returns (index: Option<map<string, string>>)
      requires forall item | item in items :: item.Item? && item.id.Text?
      ensures index == IndexItems(items)
    {
      var built: map<string, string> := map[];
      for i := 0 to |items|
        invariant IndexItems(items[..i]) == Some(built)
      {
        var item := items[i];
        assert items[..i + 1][..i] == items[..i];
        assert item in items;
        if item.kind == Text("user_message_queued") {
          if !IsIdentifier(item.client) || item.client.value in built {
            IndexFailsEarly(items, i + 1);
            return None;
          }
          built := built[item.client.value := item.id.value];
        }
      }
      assert items[..|items|] == items;
      index := Some(built);
    }

    method PublishTailChanges(tail: seq<Option<Change>>, watermark: nat) returns (raised: bool)
      requires Valid()
      modifies this`entry, this`subscribers, this`registered, all
      ensures Valid() && OnlyOverflowed() && entry.error == old(entry).error
      ensures raised == PublishTail(old(entry), tail, watermark).raised.Some?
      ensures var o := PublishTail(old(entry), tail, watermark);
              !raised ==> entry == o.entry && Given(o.notices)
    {
      ghost var before, o := entry, Quiet(entry);
      for i := 0 to |tail|
        invariant Valid() && OnlyOverflowed() && Given(o.notices)
        invariant o == PublishTail(before, tail[..i], watermark) && o.raised.None?
        invariant entry == o.entry && entry.error == before.error && entry.processEpoch == before.processEpoch
      {
        TailNext(before, tail, watermark, i);
        if PublishTail(before, tail[..i + 1], watermark).raised.Some? {
          TailFailsEarly(before, tail, watermark, i + 1);
        }
        var change := tail[i];
        if change.None? || !InTail(entry, tail[..i], change.value, watermark) {
          return true;
        }
        label published:
        ghost var more := PublishChange(entry, change.value).notices;
        var error := PublishQueueChange(change.value);
        if error.Some? {
          return true;
        }
        forall s | s in all ensures GivenTo(s, o.notices + more) {
          if !s.terminal {
            assert s.given == old@published(s.given) + more;
          }
        }
        o := PublishTail(before, tail[..i + 1], watermark);
      }
      assert tail[..|tail|] == tail;
      raised := false;
    }

    method AcceptBuffered(changes: seq<Change>) returns (raised: bool)
      requires Valid() && entry.watermark.Some?
      modifies this`entry, this`subscribers, this`registered, all
      ensures Valid() && OnlyOverflowed() && entry.error == old(entry).error
      ensures raised == AcceptAll(old(entry), changes).raised.Some?
      ensures var o := AcceptAll(old(entry), changes);
              !raised ==> entry == o.entry && Given(o.notices)
    {
      ghost var before, o := entry, Quiet(entry);
      for i := 0 to |changes|
        invariant Valid() && OnlyOverflowed() && Given(o.notices)
        invariant o == AcceptAll(before, changes[..i]) && o.raised.None?
        invariant entry == o.entry && entry.error == before.error
      {
        AcceptNext(before, changes, i);
        label accepted:
        ghost var more := Accept(entry, changes[i]).notices;
        AcceptKeeps(entry, changes[i]);
        var error := AcceptChange(changes[i]);
        if error.Some? {
          AcceptFailsEarly(before, changes, i + 1);
          return true;
        }
        forall s | s in all ensures GivenTo(s, o.notices + more) {
          if !s.terminal {
            assert s.given == old@accepted(s.given) + more;
          }
        }
        o := AcceptAll(before, changes[..i + 1]);
      }
      assert changes[..|changes|] == changes;
      raised := false;
    }

    /** The snapshot and its tail; false if either is refused. */
    method TakeBase(snapshot: Snapshot) returns (taken: bool)
      requires Valid()
      modifies this`entry, this`subscribers, this`registered, all
      ensures Valid() && OnlyOverflowed() && entry.error == old(entry).error
      ensures taken == (Acceptable(old(entry), snapshot, thread, maxPending)
                        && Base(old(entry), snapshot, thread, maxPending).raised.None?)
      ensures taken ==>
                var based := Base(old(entry), snapshot, thread, maxPending);
                entry == based.entry && Given(based.notices)
    {
      if !snapshot.sameConnection || snapshot.processEpoch != Text(entry.processEpoch) || !snapshot.ownThread
         || !CompleteSnapshot(snapshot.items, thread) {
        return false;
      }
      var index := BuildIndex(snapshot.items);
      if index.None? || !(0 <= snapshot.watermark <= MAX_WATERMARK) || |snapshot.tail| > maxPending {
        return false;
      }
      entry := entry.(queuedIds := index.value);
      var raised := PublishTailChanges(snapshot.tail, snapshot.watermark);
      if raised {
        return false;
      }
      entry := entry.(phase := Installed, watermark := Some(snapshot.watermark),
                      snapshotWatermark := snapshot.watermark, pending := []);
      taken := true;
    }

    /** The snapshot, its tail, and then the changes that were buffered meanwhile; false if any of them is refused. */
    method TakeSnapshot(snapshot: Snapshot) returns (taken: bool)
      requires Valid()
      modifies this`entry, this`subscribers, this`registered, all
      ensures Valid() && OnlyOverflowed() && entry.error == old(entry).error
      ensures var stitched := Stitch(old(entry), snapshot, thread, maxPending);
              taken == stitched.Some? && (taken ==> entry == stitched.value.0 && Given(stitched.value.1))
    {
      var pending := entry.pending;
      taken := TakeBase(snapshot);
      if taken {
        ghost var based := Base(old(entry), snapshot, thread, maxPending);
        ghost var drained := AcceptAll(entry, pending);
        label installed:
        var raised := AcceptBuffered(pending);
        forall s | s in all && !raised ensures GivenTo(s, based.notices + drained.notices) {
          if !s.terminal {
            assert s.given == old@installed(s.given) + drained.notices;
          }
        }
        taken := !raised;
      }
    }

    /** The first answer of the installation. */
    method BeginInstall(epoch: nat, processEpoch: Field)
      requires Valid() && entry.phase == Initializing && entry.error.None? && epoch > 0 && installing && !failed
      modifies this`entry, this`subscribers, this`registered, this`installing, this`failed, all
      ensures Valid() && entry == Step(old(entry), Begun(epoch, processEpoch), thread, maxPending).0
      ensures if entry.error.Some? then AllEnded()
              else all == old(all) && subscribers == old(subscribers) && forall s | s in all :: unchanged(s)
      ensures failed == !installing == entry.error.Some?
    {
      if IsIdentifier(processEpoch) {
        entry := entry.(phase := Resuming, epoch := epoch, processEpoch := processEpoch.value);
      } else {
        FailEntry(RESUME_FAILED);
        installing, failed := false, true;
      }
    }

    /** The rest of the installation, which runs without interruption once the resume calls have answered. */
    method FinishInstall(snapshot: Snapshot)
      requires Valid() && entry.phase == Resuming && installing && !failed
      modifies this`entry, this`subscribers, this`registered, this`installing, this`failed, all
      ensures Valid() && AgreesWith(Step(old(entry), Resumed(snapshot), thread, maxPending).0)
      ensures entry.error.None? ==> Delivered(Step(old(entry), Resumed(snapshot), thread, maxPending).1)
      ensures entry.error.Some? ==> AllEnded()
      ensures !installing && failed == entry.error.Some?
    {
      var taken := TakeSnapshot(snapshot);
      if !taken || entry.error.Some? {
        FailEntry(RESUME_FAILED);
        failed := true;
      }
      installing := false;
    }

    /** The installation raised before its last answer. */
    method AbandonInstall()
      requires Valid() && entry.phase != Installed && installing
      modifies this`entry, this`subscribers, this`registered, this`installing, this`failed, all
      ensures Valid() && entry == Step(old(entry), InstallRaised, thread, maxPending).0 && AllEnded()
      ensures !installing && failed
    {
      FailEntry(RESUME_FAILED);
      installing, failed := false, true;
    }

    method ResetConnection()
      requires Valid()
      modifies this`entry, this`subscribers, this`registered, all
      ensures Valid() && entry == Step(old(entry), ConnectionReset, thread, maxPending).0 && AllEnded()
    {
      FailEntry(Fanout.Reset("queued_input_connection_reset"));
    }

    /** A notification as it comes in: malformed parameters reset, and another Thread's are passed over. */
    method Dispatch(notification: WireNotification)
      requires Valid()
      modifies this`entry, this`subscribers, this`registered, all
      ensures Valid()
      ensures notification.Malformed? ==> entry == Step(old(entry), ConnectionReset, thread, maxPending).0 && AllEnded()
      ensures notification.Wire? && notification.threadId != Text(thread.threadId) ==>
                entry == old(entry) && subscribers == old(subscribers) && forall s | s in all :: unchanged(s)
      ensures notification.Wire? && notification.threadId == Text(thread.threadId) ==>
                var (after, notices) := Notify(old(entry), notification.epoch, notification.change, maxPending);
                && AgreesWith(after) && (entry.error.None? ==> Delivered(notices))
                && (old(entry).error.None? && entry.error.Some? ==> AllEnded())
    {
      match notification
      case Malformed => ResetConnection();
      case Wire(threadId, epoch, change) =>
        if threadId == Text(thread.threadId) {
          Notification(epoch, change);
        }
    }
  }

  /** The parameters of a wire notification; the change is None where it cannot be read. */
  datatype WireNotification = Malformed | Wire(threadId: Field, epoch: nat, change: Option<Change>)
}
