/**
  Stitching a snapshot, its event tail and the live notifications of a queue into one stream
  of changes with contiguous watermarks.
 */
module QueueObservation {
  import Fanout
  import opened QueueReceipts
  import opened Wrappers

  type Gap = Fanout.Gap

  const MAX_WATERMARK := 0x1F_FFFF_FFFF_FFFF

  datatype ChangeKind = Other | AttemptFailed | ItemQueued | MessageAdmitted | QueueCancelled | QueueEdited

  datatype Change = Change(
    processEpoch: string, watermark: nat, kind: ChangeKind,
    client: Option<string>, queuedId: Option<string>, identity: Option<string>)

  /** The watermark, with the process epoch and the Thread, is what the notice's digest is taken of. */
  datatype Notice = Notice(client: string, queuedId: string, attemptFailed: bool, watermark: nat,
      identity: Option<string>)

  datatype Phase = Initializing | Resuming | Installed

  /** An entry's fields. `watermark` is None until the snapshot is in. */
  datatype Entry = Entry(
    phase: Phase, epoch: nat, processEpoch: string, watermark: Option<nat>, snapshotWatermark: nat,
    lastChange: Option<Change>, queuedIds: map<string, string>, pending: seq<Change>, error: Option<Gap>)

  const FRESH := Entry(Initializing, 0, "", None, 0, None, map[], [], None)

  const INVALID := Fanout.Reset("queued_input_event_invalid")
  const RESUME_FAILED := Fanout.Reset("queued_input_resume_failed")

  /** A new entry, the notices it published, and the error that it raised. */
  datatype Outcome = Outcome(entry: Entry, notices: seq<Notice>, raised: Option<Gap>)

  function Quiet(e: Entry): Outcome { Outcome(e, [], None) }

  function Raise(e: Entry, gap: Gap): Outcome { Outcome(e, [], Some(gap)) }

  // ---- Publishing and accepting one change ----

  function PublishChange(e: Entry, c: Change): Outcome {
    if c.client.None? then Quiet(e)
    else
      var client := c.client.value;
      var known := if client in e.queuedIds then Some(e.queuedIds[client]) else None;
      if c.kind == ItemQueued then
        if c.queuedId.None? || (known.Some? && known != c.queuedId) then Raise(e, INVALID)
        else if known.None? && |e.queuedIds| >= MAX_SNAPSHOT_ITEMS then Raise(e, Fanout.Overflow(MAX_SNAPSHOT_ITEMS))
        else
          var indexed := e.(queuedIds := e.queuedIds[client := c.queuedId.value]);
          Outcome(indexed, [NoticeOf(c, client, c.queuedId.value)], None)
      else if known.None? then
        if c.kind == MessageAdmitted then Quiet(e) else Raise(e, INVALID)
      else if c.queuedId.Some? && c.queuedId != known then Raise(e, INVALID)
      else Outcome(e, [NoticeOf(c, client, known.value)], None)
  }

  function NoticeOf(c: Change, client: string, queuedId: string): Notice {
    Notice(client, queuedId, c.kind == AttemptFailed, c.watermark, c.identity)
  }

  function Accept(e: Entry, c: Change): Outcome
    requires e.watermark.Some?
  {
    if c.processEpoch != e.processEpoch then Raise(e, INVALID)
    else if c.watermark <= e.snapshotWatermark then Quiet(e)
    else if e.lastChange == Some(c) then Quiet(e)
    else if c.watermark != e.watermark.value + 1 then Raise(e, INVALID)
    else PublishChange(e.(watermark := Some(c.watermark), lastChange := Some(c)), c)
  }

  /** One change after the other, until one of them raises. */
  function AcceptAll(e: Entry, changes: seq<Change>): (o: Outcome)
    requires e.watermark.Some?
    ensures o.entry.watermark.Some?
    decreases |changes|
  {
    if changes == [] then Quiet(e)
    else
      var earlier := AcceptAll(e, changes[..|changes| - 1]);
      if earlier.raised.Some? then earlier
      else
        var last := Accept(earlier.entry, changes[|changes| - 1]);
        Outcome(last.entry, earlier.notices + last.notices, last.raised)
  }

  // ---- What the arriving changes have to be ----

  /** The arrivals without those that the snapshot covers and without immediate repetitions. */
  function LiveChanges(arrivals: seq<Change>, snapshot: nat): seq<Change> {
    if arrivals == [] then []
    else
      var earlier := LiveChanges(arrivals[..|arrivals| - 1], snapshot);
      var c := arrivals[|arrivals| - 1];
      if c.watermark <= snapshot || (earlier != [] && earlier[|earlier| - 1] == c) then earlier else earlier + [c]
  }

  predicate Contiguous(changes: seq<Change>, snapshot: nat) {
    forall i | 0 <= i < |changes| :: changes[i].watermark == snapshot + 1 + i
  }

  predicate OfEpoch(changes: seq<Change>, processEpoch: string) {
    forall c | c in changes :: c.processEpoch == processEpoch
  }

  function PublishAll(e: Entry, changes: seq<Change>): Outcome
    decreases |changes|
  {
    if changes == [] then Quiet(e)
    else
      var earlier := PublishAll(e, changes[..|changes| - 1]);
      if earlier.raised.Some? then earlier
      else
        var last := PublishChange(earlier.entry, changes[|changes| - 1]);
        Outcome(last.entry, earlier.notices + last.notices, last.raised)
  }

  /** The entry as the snapshot and its tail leave it. */
  predicate AtSnapshot(e: Entry) { e.watermark == Some(e.snapshotWatermark) && e.lastChange.None? }

  /** The fields that accepting does not depend on publishing for. */
  function Positioned(e: Entry, changes: seq<Change>): Entry {
    if changes == [] then e
    else e.(watermark := Some(changes[|changes| - 1].watermark), lastChange := Some(changes[|changes| - 1]))
  }

  lemma PublishIgnoresPosition(e: Entry, c: Change, watermark: Option<nat>, lastChange: Option<Change>)
    ensures PublishChange(e.(watermark := watermark, lastChange := lastChange), c)
            == PublishChange(e, c).(
                 entry := PublishChange(e, c).entry.(watermark := watermark, lastChange := lastChange))
  {
  }

  lemma {:induction false} PublishAllKeepsPosition(e: Entry, changes: seq<Change>)
    ensures PublishAll(e, changes).entry == e.(queuedIds := PublishAll(e, changes).entry.queuedIds)
    decreases |changes|
  {
    if changes != [] {
      PublishAllKeepsPosition(e, changes[..|changes| - 1]);
    }
  }

  predicate Stitched(e: Entry, arrivals: seq<Change>) {
    var live := LiveChanges(arrivals, e.snapshotWatermark);
    OfEpoch(arrivals, e.processEpoch) && Contiguous(live, e.snapshotWatermark) && PublishAll(e, live).raised.None?
  }

  /** Exactly the stitched arrivals are accepted, and then the notices are those of their live changes, in order. */
  ghost predicate AcceptsAsSpecified(e: Entry, arrivals: seq<Change>)
    requires AtSnapshot(e)
  {
    var outcome := AcceptAll(e, arrivals);
    var live := LiveChanges(arrivals, e.snapshotWatermark);
    && (outcome.raised.None? <==> Stitched(e, arrivals))
    && (outcome.raised.None? ==>
          && outcome.notices == PublishAll(e, live).notices
          && outcome.entry == Positioned(PublishAll(e, live).entry, live))
  }

  lemma LiveStep(arrivals: seq<Change>, c: Change, snapshot: nat)
    ensures var live := LiveChanges(arrivals, snapshot);
            LiveChanges(arrivals + [c], snapshot)
            == if c.watermark <= snapshot || (live != [] && live[|live| - 1] == c) then live else live + [c]
  {
    assert (arrivals + [c])[..|arrivals|] == arrivals;
  }

  lemma AcceptStep(e: Entry, arrivals: seq<Change>, c: Change)
    requires e.watermark.Some?
    ensures var earlier := AcceptAll(e, arrivals);
            AcceptAll(e, arrivals + [c])
            == if earlier.raised.Some? then earlier
               else var last := Accept(earlier.entry, c);
                    Outcome(last.entry, earlier.notices + last.notices, last.raised)
  {
    assert (arrivals + [c])[..|arrivals|] == arrivals;
  }

  lemma PublishStep(e: Entry, changes: seq<Change>, c: Change)
    ensures var earlier := PublishAll(e, changes);
            PublishAll(e, changes + [c])
            == if earlier.raised.Some? then earlier
               else var last := PublishChange(earlier.entry, c);
                    Outcome(last.entry, earlier.notices + last.notices, last.raised)
  {
    assert (changes + [c])[..|changes|] == changes;
  }

  lemma NextIsContiguous(live: seq<Change>, c: Change, snapshot: nat)
    requires Contiguous(live, snapshot)
    ensures Contiguous(live + [c], snapshot) <==> c.watermark == snapshot + 1 + |live|
  {
    var longer := live + [c];
    assert longer[|live|] == c;
  }

  lemma BrokenStaysBroken(live: seq<Change>, c: Change, snapshot: nat)
    requires !Contiguous(live, snapshot)
    ensures !Contiguous(live + [c], snapshot)
  {
    var i :| 0 <= i < |live| && live[i].watermark != snapshot + 1 + i;
    assert (live + [c])[i] == live[i];
  }

  lemma UnstitchedStays(e: Entry, arrivals: seq<Change>, c: Change)
    requires !Stitched(e, arrivals)
    ensures !Stitched(e, arrivals + [c])
  {
    var live := LiveChanges(arrivals, e.snapshotWatermark);
    LiveStep(arrivals, c, e.snapshotWatermark);
    if !OfEpoch(arrivals, e.processEpoch) {
      var foreign :| foreign in arrivals && foreign.processEpoch != e.processEpoch;
      assert foreign in arrivals + [c];
    } else if !Contiguous(live, e.snapshotWatermark) {
      BrokenStaysBroken(live, c, e.snapshotWatermark);
    } else {
      PublishStep(e, live, c);
    }
  }

  /** Accepting a change at the position that the live changes so far have led to. */
  lemma AcceptAtPosition(e: Entry, published: Entry, live: seq<Change>, c: Change)
    requires AtSnapshot(e) && published == e.(queuedIds := published.queuedIds)
    requires Contiguous(live, e.snapshotWatermark) && c.processEpoch == e.processEpoch
    ensures var here := Positioned(published, live);
            here.watermark == Some(e.snapshotWatermark + |live|)
            && Accept(here, c)
               == if c.watermark <= e.snapshotWatermark || (live != [] && live[|live| - 1] == c) then Quiet(here)
                  else if c.watermark != e.snapshotWatermark + |live| + 1 then Raise(here, INVALID)
                  else
                    var o := PublishChange(published, c);
                    Outcome(Positioned(o.entry, live + [c]), o.notices, o.raised)
  {
    PublishIgnoresPosition(published, c, Some(c.watermark), Some(c));
    assert (live + [c])[|live + [c]| - 1] == c;
  }

  lemma EpochStep(arrivals: seq<Change>, c: Change, processEpoch: string)
    requires OfEpoch(arrivals, processEpoch)
    ensures OfEpoch(arrivals + [c], processEpoch) <==> c.processEpoch == processEpoch
  {
    assert c in arrivals + [c];
  }

  lemma StitchedIgnores(e: Entry, arrivals: seq<Change>, c: Change)
    requires AtSnapshot(e) && AcceptsAsSpecified(e, arrivals) && Stitched(e, arrivals)
    requires LiveChanges(arrivals + [c], e.snapshotWatermark) == LiveChanges(arrivals, e.snapshotWatermark)
    requires c.processEpoch == e.processEpoch
    ensures AcceptsAsSpecified(e, arrivals + [c])
  {
    var live := LiveChanges(arrivals, e.snapshotWatermark);
    var earlier, published := AcceptAll(e, arrivals), PublishAll(e, live);
    LiveStep(arrivals, c, e.snapshotWatermark);
    EpochStep(arrivals, c, e.processEpoch);
    PublishAllKeepsPosition(e, live);
    AcceptAtPosition(e, published.entry, live, c);
    assert live + [c] != live;
    assert Accept(earlier.entry, c) == Quiet(earlier.entry);
    AcceptStep(e, arrivals, c);
    assert earlier.notices + [] == earlier.notices;
  }

  lemma StitchedExtends(e: Entry, arrivals: seq<Change>, c: Change)
    requires AtSnapshot(e) && AcceptsAsSpecified(e, arrivals) && Stitched(e, arrivals)
    requires LiveChanges(arrivals + [c], e.snapshotWatermark) == LiveChanges(arrivals, e.snapshotWatermark) + [c]
    requires c.processEpoch == e.processEpoch
    ensures AcceptsAsSpecified(e, arrivals + [c])
  {
    var live := LiveChanges(arrivals, e.snapshotWatermark);
    var earlier, published := AcceptAll(e, arrivals), PublishAll(e, live);
    LiveStep(arrivals, c, e.snapshotWatermark);
    assert live + [c] != live;
    EpochStep(arrivals, c, e.processEpoch);
    PublishAllKeepsPosition(e, live);
    AcceptAtPosition(e, published.entry, live, c);
    NextIsContiguous(live, c, e.snapshotWatermark);
    PublishStep(e, live, c);
    AcceptStep(e, arrivals, c);
  }

  lemma StitchedStep(e: Entry, arrivals: seq<Change>, c: Change)
    requires AtSnapshot(e) && AcceptsAsSpecified(e, arrivals) && Stitched(e, arrivals)
    ensures AcceptsAsSpecified(e, arrivals + [c])
  {
    LiveStep(arrivals, c, e.snapshotWatermark);
    EpochStep(arrivals, c, e.processEpoch);
    if c.processEpoch != e.processEpoch {
      PublishAllKeepsPosition(e, LiveChanges(arrivals, e.snapshotWatermark));
      AcceptStep(e, arrivals, c);
    } else if LiveChanges(arrivals + [c], e.snapshotWatermark) == LiveChanges(arrivals, e.snapshotWatermark) {
      StitchedIgnores(e, arrivals, c);
    } else {
      StitchedExtends(e, arrivals, c);
    }
  }

  /**
    Watermark continuity: the arrivals are accepted exactly if they are of the process epoch, the live
    ones among them carry the watermarks snapshot + 1, snapshot + 2, ... in order, and their lineage
    is consistent; then they are published once each in that order, and the rest changes nothing.
   */
  lemma {:induction false} AcceptedAreContiguous(e: Entry, arrivals: seq<Change>)
    requires AtSnapshot(e)
    ensures AcceptsAsSpecified(e, arrivals)
    decreases |arrivals|
  {
    if arrivals != [] {
      var earlier, c := arrivals[..|arrivals| - 1], arrivals[|arrivals| - 1];
      assert arrivals == earlier + [c];
      AcceptedAreContiguous(e, earlier);
      if Stitched(e, earlier) {
        StitchedStep(e, earlier, c);
      } else {
        AcceptStep(e, earlier, c);
        UnstitchedStays(e, earlier, c);
      }
    }
  }

  // ---- Installing the snapshot ----

  /**
    What the resume calls answer: whether every answer is of the entry's connection and shows its
    Thread, the process epoch, the canonical items, the watermark, and the event tail.
   */
  datatype Snapshot = Snapshot(
    sameConnection: bool, processEpoch: Field, ownThread: bool,
    items: seq<Item>, watermark: int, tail: seq<Option<Change>>)

  /** Each client's queued item; None if a client id is invalid or is queued twice. */
  function IndexItems(items: seq<Item>): Option<map<string, string>> {
    if items == [] then Some(map[])
    else
      var earlier := IndexItems(items[..|items| - 1]);
      var item := items[|items| - 1];
      if earlier.None? || !item.Item? || item.kind != Text("user_message_queued") then earlier
      else if !IsIdentifier(item.client) || !item.id.Text? || item.client.value in earlier.value then None
      else Some(earlier.value[item.client.value := item.id.value])
  }

  /** The tail replays changes that the snapshot covers; `prior` is the watermark before it. */
  function PublishTail(e: Entry, tail: seq<Option<Change>>, watermark: nat): Outcome
    decreases |tail|
  {
    if tail == [] then Quiet(e)
    else
      var before, change := tail[..|tail| - 1], tail[|tail| - 1];
      var earlier := PublishTail(e, before, watermark);
      if earlier.raised.Some? then earlier
      else if change.None? || !InTail(e, before, change.value, watermark) then earlier.(raised := Some(RESUME_FAILED))
      else
        var last := PublishChange(earlier.entry, change.value);
        Outcome(last.entry, earlier.notices + last.notices, last.raised)
  }

  predicate InTail(e: Entry, before: seq<Option<Change>>, change: Change, watermark: nat) {
    && change.processEpoch == e.processEpoch && change.watermark <= watermark
    && (before != [] && before[|before| - 1].Some? ==> change.watermark > before[|before| - 1].value.watermark)
  }

  predicate Acceptable(e: Entry, snapshot: Snapshot, thread: ThreadRef, max: nat) {
    && snapshot.sameConnection && snapshot.processEpoch == Text(e.processEpoch) && snapshot.ownThread
    && CompleteSnapshot(snapshot.items, thread) && IndexItems(snapshot.items).Some?
    && 0 <= snapshot.watermark <= MAX_WATERMARK && |snapshot.tail| <= max
  }

  /** The entry with the snapshot and the tail, before any buffered change. */
  function Base(e: Entry, snapshot: Snapshot, thread: ThreadRef, max: nat): Outcome
    requires Acceptable(e, snapshot, thread, max)
  {
    var indexed := e.(queuedIds := IndexItems(snapshot.items).value);
    var tailed := PublishTail(indexed, snapshot.tail, snapshot.watermark);
    tailed.(entry := tailed.entry.(
              phase := Installed, watermark := Some(snapshot.watermark),
              snapshotWatermark := snapshot.watermark, pending := []))
  }

  function Fail(e: Entry, gap: Gap): Entry { e.(error := Some(gap), pending := []) }

  /** The snapshot, its tail and the buffered changes put together; None if any of them is refused. */
  function Stitch(e: Entry, snapshot: Snapshot, thread: ThreadRef, max: nat): Option<(Entry, seq<Notice>)> {
    if !Acceptable(e, snapshot, thread, max) then None
    else
      var based := Base(e, snapshot, thread, max);
      if based.raised.Some? then None
      else
        var drained := AcceptAll(based.entry, e.pending);
        if drained.raised.Some? then None else Some((drained.entry, based.notices + drained.notices))
  }

  function Install(e: Entry, snapshot: Snapshot, thread: ThreadRef, max: nat): (Entry, seq<Notice>) {
    var stitched := Stitch(e, snapshot, thread, max);
    if e.error.Some? || stitched.None? then (Fail(e, RESUME_FAILED), []) else stitched.value
  }

  function Begin(e: Entry, epoch: nat, processEpoch: Field): Entry {
    if !IsIdentifier(processEpoch) then Fail(e, RESUME_FAILED)
    else e.(phase := Resuming, epoch := epoch, processEpoch := processEpoch.value)
  }

  /** A notification for the entry's Thread; None where the change cannot be read. */
  function Notify(e: Entry, epoch: nat, change: Option<Change>, max: nat): (Entry, seq<Notice>) {
    if e.error.Some? || e.epoch == 0 then (e, [])
    else if epoch != e.epoch || change.None? then (Fail(e, INVALID), [])
    else if e.watermark.None? then
      if |e.pending| >= max then (Fail(e, Fanout.Overflow(max)), [])
      else (e.(pending := e.pending + [change.value]), [])
    else
      var accepted := Accept(e, change.value);
      if accepted.raised.Some? then (Fail(e, accepted.raised.value), []) else (accepted.entry, accepted.notices)
  }

  // An early failure decides the whole.

  lemma {:induction false} AcceptFailsEarly(e: Entry, changes: seq<Change>, n: nat)
    requires e.watermark.Some? && n <= |changes| && AcceptAll(e, changes[..n]).raised.Some?
    ensures AcceptAll(e, changes).raised.Some?
    decreases |changes|
  {
    if n < |changes| {
      assert changes[..|changes| - 1][..n] == changes[..n];
      AcceptFailsEarly(e, changes[..|changes| - 1], n);
    } else {
      assert changes[..n] == changes;
    }
  }

  lemma TailNext(e: Entry, tail: seq<Option<Change>>, watermark: nat, i: nat)
    requires i < |tail|
    ensures var earlier := PublishTail(e, tail[..i], watermark);
            PublishTail(e, tail[..i + 1], watermark)
            == if earlier.raised.Some? then earlier
               else if tail[i].None? || !InTail(e, tail[..i], tail[i].value, watermark)
               then earlier.(raised := Some(RESUME_FAILED))
               else var last := PublishChange(earlier.entry, tail[i].value);
                    Outcome(last.entry, earlier.notices + last.notices, last.raised)
  {
    assert tail[..i + 1][..i] == tail[..i];
  }

  lemma AcceptNext(e: Entry, changes: seq<Change>, i: nat)
    requires e.watermark.Some? && i < |changes|
    ensures var earlier := AcceptAll(e, changes[..i]);
            AcceptAll(e, changes[..i + 1])
            == if earlier.raised.Some? then earlier
               else var last := Accept(earlier.entry, changes[i]);
                    Outcome(last.entry, earlier.notices + last.notices, last.raised)
  {
    assert changes[..i + 1][..i] == changes[..i];
  }

  lemma {:induction false} TailFailsEarly(e: Entry, tail: seq<Option<Change>>, watermark: nat, n: nat)
    requires n <= |tail| && PublishTail(e, tail[..n], watermark).raised.Some?
    ensures PublishTail(e, tail, watermark).raised.Some?
    decreases |tail|
  {
    if n < |tail| {
      assert tail[..|tail| - 1][..n] == tail[..n];
      TailFailsEarly(e, tail[..|tail| - 1], watermark, n);
    } else {
      assert tail[..n] == tail;
    }
  }

  lemma {:induction false} IndexFailsEarly(items: seq<Item>, n: nat)
    requires n <= |items| && IndexItems(items[..n]).None?
    ensures IndexItems(items).None?
    decreases |items|
  {
    if n < |items| {
      assert items[..|items| - 1][..n] == items[..n];
      IndexFailsEarly(items[..|items| - 1], n);
    } else {
      assert items[..n] == items;
    }
  }

  // ---- Runs ----

  datatype Input =
    | Begun(epoch: nat, processEpoch: Field)
    | Arrived(epoch: nat, change: Option<Change>)
    | Resumed(snapshot: Snapshot)
    | InstallRaised
    | ConnectionReset

  /** The installation begins once and ends once; what comes out of order cannot happen. */
  function Step(e: Entry, input: Input, thread: ThreadRef, max: nat): (Entry, seq<Notice>) {
    match input
    case Begun(epoch, processEpoch) =>
      (if e.phase == Initializing && e.error.None? && epoch > 0 then Begin(e, epoch, processEpoch) else e, [])
    case Arrived(epoch, change) => Notify(e, epoch, change, max)
    case Resumed(snapshot) => if e.phase == Resuming then Install(e, snapshot, thread, max) else (e, [])
    case InstallRaised => (if e.phase != Installed then Fail(e, RESUME_FAILED) else e, [])
    case ConnectionReset => (Fail(e, Fanout.Reset("queued_input_connection_reset")), [])
  }

  /** A run, with the changes that arrived since it began and the outcome of the snapshot and its tail. */
  datatype Trace = Trace(entry: Entry, arrivals: seq<Change>, base: Outcome, notices: seq<Notice>)

  function StepTrace(t: Trace, input: Input, thread: ThreadRef, max: nat): Trace {
    var (after, notices) := Step(t.entry, input, thread, max);
    Trace(
      after,
      if input.Arrived? && input.change.Some? && t.entry.epoch > 0
          then t.arrivals + [input.change.value] else t.arrivals,
      if input.Resumed? && t.entry.phase == Resuming && Acceptable(t.entry, input.snapshot, thread, max)
      then Base(t.entry, input.snapshot, thread, max) else t.base,
      t.notices + notices)
  }

  function Run(inputs: seq<Input>, thread: ThreadRef, max: nat): Trace {
    if inputs == [] then Trace(FRESH, [], Quiet(FRESH), [])
    else StepTrace(Run(inputs[..|inputs| - 1], thread, max), inputs[|inputs| - 1], thread, max)
  }

  ghost predicate TraceInv(t: Trace, max: nat) {
    var e := t.entry;
    e.error.None? ==>
      match e.phase
      case Initializing => e == FRESH && t.arrivals == [] && t.notices == []
      case Resuming =>
        && e.epoch > 0 && e.watermark.None? && e.lastChange.None?
        && e.pending == t.arrivals && |e.pending| <= max && t.notices == []
      case Installed =>
        && e.epoch > 0 && e.pending == [] && e.watermark.Some?
        && AtSnapshot(t.base.entry) && t.base.raised.None?
        && AcceptAll(t.base.entry, t.arrivals).raised.None?
        && e == AcceptAll(t.base.entry, t.arrivals).entry
        && t.notices == t.base.notices + AcceptAll(t.base.entry, t.arrivals).notices
  }

  lemma AcceptKeeps(e: Entry, c: Change)
    requires e.watermark.Some?
    ensures Accept(e, c).entry == e.(
              watermark := Accept(e, c).entry.watermark, lastChange := Accept(e, c).entry.lastChange,
              queuedIds := Accept(e, c).entry.queuedIds)
  {
  }

  lemma {:induction false} AcceptAllKeeps(e: Entry, changes: seq<Change>)
    requires e.watermark.Some?
    ensures var after := AcceptAll(e, changes).entry;
            after == e.(watermark := after.watermark, lastChange := after.lastChange, queuedIds := after.queuedIds)
    decreases |changes|
  {
    if changes != [] {
      AcceptAllKeeps(e, changes[..|changes| - 1]);
    }
  }

  lemma {:induction false} PublishTailKeeps(e: Entry, tail: seq<Option<Change>>, watermark: nat)
    ensures PublishTail(e, tail, watermark).entry == e.(queuedIds := PublishTail(e, tail, watermark).entry.queuedIds)
    decreases |tail|
  {
    if tail != [] {
      PublishTailKeeps(e, tail[..|tail| - 1], watermark);
    }
  }

  lemma NotifyKeepsInv(t: Trace, input: Input, thread: ThreadRef, max: nat)
    requires TraceInv(t, max) && input.Arrived?
    ensures TraceInv(StepTrace(t, input, thread, max), max)
  {
    var e := t.entry;
    assert t.notices + [] == t.notices;
    if e.error.None? && e.epoch > 0 && input.epoch == e.epoch && input.change.Some? && e.phase == Installed {
      AcceptStep(t.base.entry, t.arrivals, input.change.value);
      AcceptKeeps(e, input.change.value);
      var earlier, last := AcceptAll(t.base.entry, t.arrivals), Accept(e, input.change.value);
      assert t.base.notices + (earlier.notices + last.notices) == t.notices + last.notices;
    }
  }

  lemma ResumeKeepsInv(t: Trace, input: Input, thread: ThreadRef, max: nat)
    requires TraceInv(t, max) && input.Resumed?
    ensures TraceInv(StepTrace(t, input, thread, max), max)
  {
    var e := t.entry;
    assert t.notices + [] == t.notices;
    if e.error.None? && e.phase == Resuming && Acceptable(e, input.snapshot, thread, max) {
      var based := Base(e, input.snapshot, thread, max);
      PublishTailKeeps(e.(queuedIds := IndexItems(input.snapshot.items).value), input.snapshot.tail,
          input.snapshot.watermark);
      AcceptAllKeeps(based.entry, e.pending);
      assert t.notices + (based.notices + AcceptAll(based.entry, e.pending).notices)
             == based.notices + AcceptAll(based.entry, e.pending).notices;
    }
  }

  lemma {:induction false} RunKeepsInv(inputs: seq<Input>, thread: ThreadRef, max: nat)
    ensures TraceInv(Run(inputs, thread, max), max)
    decreases |inputs|
  {
    if inputs != [] {
      var t, input := Run(inputs[..|inputs| - 1], thread, max), inputs[|inputs| - 1];
      RunKeepsInv(inputs[..|inputs| - 1], thread, max);
      assert t.notices + [] == t.notices;
      match input
      case Begun(_, _) =>
      case Arrived(_, _) => NotifyKeepsInv(t, input, thread, max);
      case Resumed(_) => ResumeKeepsInv(t, input, thread, max);
      case InstallRaised =>
      case ConnectionReset =>
    }
  }

  /** The entry stands behind live changes that carry the watermarks snapshot + 1, snapshot + 2, ... in order. */
  predicate StandsBehind(e: Entry, live: seq<Change>) {
    Contiguous(live, e.snapshotWatermark) && e.watermark == Some(e.snapshotWatermark + |live|)
  }

  lemma PositionedStandsBehind(e: Entry, live: seq<Change>)
    requires e.watermark == Some(e.snapshotWatermark) && Contiguous(live, e.snapshotWatermark)
    ensures StandsBehind(Positioned(e, live), live)
  {
    if live != [] {
      var last := |live| - 1;
      assert live[last].watermark == e.snapshotWatermark + 1 + last;
    }
  }

  lemma AcceptedStandsBehind(base: Entry, arrivals: seq<Change>)
    requires AtSnapshot(base) && AcceptAll(base, arrivals).raised.None?
    ensures var live := LiveChanges(arrivals, base.snapshotWatermark);
            var after := AcceptAll(base, arrivals);
            && OfEpoch(arrivals, base.processEpoch) && StandsBehind(after.entry, live)
            && after.notices == PublishAll(base, live).notices
            && after.entry.snapshotWatermark == base.snapshotWatermark && after.entry.processEpoch == base.processEpoch
  {
    var live := LiveChanges(arrivals, base.snapshotWatermark);
    AcceptedAreContiguous(base, arrivals);
    PublishAllKeepsPosition(base, live);
    PositionedStandsBehind(PublishAll(base, live).entry, live);
  }

  /**
    Over every interleaving of the installation with arriving notifications, buffered or live, until the
    first error: all arrivals are of the process epoch, the live ones carry the watermarks
    snapshot + 1, snapshot + 2, ... in order, and after the tail's notices the subscribers get theirs, in order.
   */
  lemma StreamIsStitched(inputs: seq<Input>, thread: ThreadRef, max: nat)
    requires var e := Run(inputs, thread, max).entry; e.error.None? && e.phase == Installed
    ensures var t := Run(inputs, thread, max);
            var live := LiveChanges(t.arrivals, t.entry.snapshotWatermark);
            && OfEpoch(t.arrivals, t.entry.processEpoch) && StandsBehind(t.entry, live)
            && t.notices == t.base.notices + PublishAll(t.base.entry, live).notices
  {
    RunKeepsInv(inputs, thread, max);
    var t := Run(inputs, thread, max);
    AcceptedStandsBehind(t.base.entry, t.arrivals);
  }

  /** After the installation an arrival of the entry's connection raises an error exactly if it breaks the stitching. */
  lemma OnlyBreaksRaise(inputs: seq<Input>, thread: ThreadRef, max: nat, c: Change)
    requires var e := Run(inputs, thread, max).entry; e.error.None? && e.phase == Installed
    ensures var t := Run(inputs, thread, max);
            Notify(t.entry, t.entry.epoch, Some(c), max).0.error.None? <==> Stitched(t.base.entry, t.arrivals + [c])
  {
    var t := Run(inputs, thread, max);
    RunKeepsInv(inputs, thread, max);
    AcceptStep(t.base.entry, t.arrivals, c);
    AcceptedAreContiguous(t.base.entry, t.arrivals + [c]);
    AcceptKeeps(t.entry, c);
  }

  // ---- Lineage ----

  predicate Extends(later: map<string, string>, earlier: map<string, string>) {
    forall client | client in earlier :: client in later && later[client] == earlier[client]
  }

  predicate NoticesAgree(notices: seq<Notice>, index: map<string, string>) {
    forall n | n in notices :: n.client in index && index[n.client] == n.queuedId
  }

  lemma PublishKeepsLineage(e: Entry, c: Change)
    ensures Extends(PublishChange(e, c).entry.queuedIds, e.queuedIds)
    ensures NoticesAgree(PublishChange(e, c).notices, PublishChange(e, c).entry.queuedIds)
  {
  }

  lemma {:induction false} AcceptAllKeepsLineage(e: Entry, changes: seq<Change>)
    requires e.watermark.Some?
    ensures Extends(AcceptAll(e, changes).entry.queuedIds, e.queuedIds)
    ensures NoticesAgree(AcceptAll(e, changes).notices, AcceptAll(e, changes).entry.queuedIds)
    decreases |changes|
  {
    if changes != [] {
      AcceptAllKeepsLineage(e, changes[..|changes| - 1]);
      var earlier := AcceptAll(e, changes[..|changes| - 1]).entry;
      var c := changes[|changes| - 1];
      PublishKeepsLineage(earlier.(watermark := Some(c.watermark), lastChange := Some(c)), c);
    }
  }

  lemma {:induction false} PublishTailKeepsLineage(e: Entry, tail: seq<Option<Change>>, watermark: nat)
    ensures NoticesAgree(PublishTail(e, tail, watermark).notices, PublishTail(e, tail, watermark).entry.queuedIds)
    decreases |tail|
  {
    if tail != [] {
      PublishTailKeepsLineage(e, tail[..|tail| - 1], watermark);
      if tail[|tail| - 1].Some? {
        PublishKeepsLineage(PublishTail(e, tail[..|tail| - 1], watermark).entry, tail[|tail| - 1].value);
      }
    }
  }

  lemma {:induction false} BaseKeepsLineage(inputs: seq<Input>, thread: ThreadRef, max: nat)
    ensures var base := Run(inputs, thread, max).base; NoticesAgree(base.notices, base.entry.queuedIds)
    decreases |inputs|
  {
    if inputs != [] {
      BaseKeepsLineage(inputs[..|inputs| - 1], thread, max);
      var e := Run(inputs[..|inputs| - 1], thread, max).entry;
      var input := inputs[|inputs| - 1];
      if input.Resumed? && Acceptable(e, input.snapshot, thread, max) {
        PublishTailKeepsLineage(e.(queuedIds := IndexItems(input.snapshot.items).value), input.snapshot.tail,
            input.snapshot.watermark);
      }
    }
  }

  /** Every notice names the queued item that the index still names, so two notices for a client never disagree. */
  lemma NoticesNameOneItem(inputs: seq<Input>, thread: ThreadRef, max: nat)
    requires var e := Run(inputs, thread, max).entry; e.error.None?
    ensures NoticesAgree(Run(inputs, thread, max).notices, Run(inputs, thread, max).entry.queuedIds)
  {
    var t := Run(inputs, thread, max);
    RunKeepsInv(inputs, thread, max);
    if t.entry.phase == Installed {
      BaseKeepsLineage(inputs, thread, max);
      AcceptAllKeepsLineage(t.base.entry, t.arrivals);
    }
  }

  lemma {:induction false} IndexFacts(items: seq<Item>, client: string)
    requires IndexItems(items).Some?
    ensures var queued := QueuedOf(items, client); var index := IndexItems(items).value;
            |queued| <= 1 && (client in index <==> |queued| == 1)
            && (|queued| == 1 ==> queued[0].Item? && queued[0].id == Text(index[client]))
    decreases |items|
  {
    if items != [] {
      IndexFacts(items[..|items| - 1], client);
    }
  }

  /** The wake-up index of a snapshot and the receipts read from it name the same queued item. */
  lemma IndexAgreesWithReceipts(items: seq<Item>, thread: ThreadRef, client: string)
    requires IndexItems(items).Some? && ReadFor(items, thread, client).Read?
    ensures var receipt := ReadFor(items, thread, client).receipt; var index := IndexItems(items).value;
            (receipt.Some? <==> client in index) && (receipt.Some? ==> receipt.value.queuedItemId == index[client])
  {
    IndexFacts(items, client);
  }
}
