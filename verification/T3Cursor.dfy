/**
  The activity cursor of the T3 adapter. Each poll sees a window of the Thread's activities; the
  cursor and the seen ids decide which of them are new, and a cursor that has left the window is
  reported as a gap.
 */
module T3Cursor {
  import opened Wrappers

  /** `createdAt` stands for the rank of the creation time's text. */
  datatype Activity = Activity(id: string, createdAt: int)

  datatype State = State(cursor: Option<string>, seen: set<string>)

  datatype PollError = WindowGap | PresenterFailed

  function Ids(activities: seq<Activity>): set<string> {
    set activity | activity in activities && activity.id != "" :: activity.id
  }

  // ---- Specification of one poll ----

  function LastIndex(window: seq<Activity>, id: string): (index: Option<nat>)
    ensures index.Some? ==> index.value < |window| && window[index.value].id == id
                            && forall i | index.value < i < |window| :: window[i].id != id
    ensures index.None? ==> forall i | 0 <= i < |window| :: window[i].id != id
  {
    if window == [] then None
    else if window[|window| - 1].id == id then Some(|window| - 1)
    else LastIndex(window[..|window| - 1], id)
  }

  function AfterCursor(cursor: Option<string>, window: seq<Activity>): Result<seq<Activity>, PollError> {
    match cursor
    case None => Ok(window)
    case Some(id) =>
      match LastIndex(window, id)
      case Some(index) => Ok(window[index + 1..])
      case None => if window == [] then Ok([]) else Err(WindowGap)
  }

  /** The new activities of a window, and the state in which they are looked at. */
  function Candidates(s: State, window: seq<Activity>, max: nat): (State, Result<seq<Activity>, PollError>) {
    match AfterCursor(s.cursor, window)
    case Err(error) => (s, Err(error))
    case Ok(candidates) =>
      if s.cursor.Some? && LastIndex(window, s.cursor.value).None? then (s, Ok([]))
      else if |candidates| > max then (s, Err(WindowGap))
      else (s.(seen := s.seen * Ids(candidates)), Ok(candidates))
  }

  function Initialized(s: State, window: seq<Activity>): State {
    if window == [] then State(s.cursor, {})
    else
      var final := window[|window| - 1].id;
      State(if final == "" then None else Some(final), {})
  }

  function Unseen(candidates: seq<Activity>, seen: set<string>): seq<Activity> {
    if candidates == [] then []
    else
      var rest := Unseen(candidates[1..], seen);
      if candidates[0].id == "" || candidates[0].id in seen then rest else [candidates[0]] + rest
  }

  /** Places an activity before the later ones of equal time, so that sorting keeps their order. */
  function InsertInOrder(activity: Activity, sorted: seq<Activity>): seq<Activity> {
    if sorted == [] || activity.createdAt <= sorted[0].createdAt then [activity] + sorted
    else [sorted[0]] + InsertInOrder(activity, sorted[1..])
  }

  function InOrder(activities: seq<Activity>): seq<Activity> {
    if activities == [] then [] else InsertInOrder(activities[0], InOrder(activities[1..]))
  }

  function Advanced(s: State, window: seq<Activity>): State {
    if window != [] && window[|window| - 1].id != "" then s.(cursor := Some(window[|window| - 1].id)) else s
  }

  datatype Poll = Poll(state: State, presented: seq<Activity>, error: Option<PollError>)

  /** A poll in which the presenter raises on its activity number `failAt`, if there is one. */
  function PollWindow(s: State, window: seq<Activity>, failAt: Option<nat>, max: nat): Poll {
    var (looked, result) := Candidates(s, window, max);
    match result
    case Err(error) => Poll(looked, [], Some(error))
    case Ok(candidates) => Present(looked, InOrder(Unseen(candidates, looked.seen)), window, failAt)
  }

  /** Presents the ordered activities one by one; the cursor moves to the end of the window only after all of them. */
  function Present(looked: State, ordered: seq<Activity>, window: seq<Activity>, failAt: Option<nat>): Poll {
    if failAt.Some? && failAt.value < |ordered| then
      var presented := ordered[..failAt.value];
      Poll(looked.(seen := looked.seen + Ids(presented)), presented, Some(PresenterFailed))
    else
      Poll(Advanced(looked.(seen := looked.seen + Ids(ordered)), window), ordered, None)
  }

  lemma {:induction false} InsertFacts(activity: Activity, sorted: seq<Activity>)
    ensures multiset(InsertInOrder(activity, sorted)) == multiset{activity} + multiset(sorted)
  {
    if sorted != [] {
      assert sorted == [sorted[0]] + sorted[1..];
      if activity.createdAt > sorted[0].createdAt {
        InsertFacts(activity, sorted[1..]);
      }
    }
  }

  lemma {:induction false} OrderKeepsActivities(activities: seq<Activity>)
    ensures multiset(InOrder(activities)) == multiset(activities)
  {
    if activities != [] {
      assert activities == [activities[0]] + activities[1..];
      OrderKeepsActivities(activities[1..]);
      InsertFacts(activities[0], InOrder(activities[1..]));
    }
  }

  predicate SortedByTime(activities: seq<Activity>) {
    forall i, j | 0 <= i < j < |activities| :: activities[i].createdAt <= activities[j].createdAt
  }

  lemma FirstThenSorted(first: Activity, rest: seq<Activity>)
    requires SortedByTime(rest) && forall later | later in rest :: first.createdAt <= later.createdAt
    ensures SortedByTime([first] + rest)
  {
    assert forall i | 0 <= i < |rest| :: rest[i] in rest;
  }

  lemma {:induction false} InsertSorted(activity: Activity, sorted: seq<Activity>)
    requires SortedByTime(sorted)
    ensures SortedByTime(InsertInOrder(activity, sorted))
  {
    if sorted != [] && activity.createdAt > sorted[0].createdAt {
      InsertSorted(activity, sorted[1..]);
      InsertFacts(activity, sorted[1..]);
      var rest := InsertInOrder(activity, sorted[1..]);
      forall later | later in rest ensures sorted[0].createdAt <= later.createdAt {
        assert later in multiset(rest);
        assert later == activity || later in sorted[1..];
      }
      FirstThenSorted(sorted[0], rest);
    }
  }

  lemma {:induction false} OrderSorts(activities: seq<Activity>)
    ensures SortedByTime(InOrder(activities))
  {
    if activities != [] {
      OrderSorts(activities[1..]);
      InsertSorted(activities[0], InOrder(activities[1..]));
    }
  }

  /** The activities of one creation time. */
  function AtTime(activities: seq<Activity>, time: int): seq<Activity> {
    if activities == [] then []
    else (if activities[0].createdAt == time then [activities[0]] else []) + AtTime(activities[1..], time)
  }

  lemma AtTimeOfCons(activity: Activity, rest: seq<Activity>, time: int)
    ensures AtTime([activity] + rest, time)
            == if activity.createdAt == time then [activity] + AtTime(rest, time) else AtTime(rest, time)
  {
    assert ([activity] + rest)[1..] == rest;
  }

  lemma {:induction false} InsertIsStable(activity: Activity, sorted: seq<Activity>, time: int)
    ensures AtTime(InsertInOrder(activity, sorted), time)
            == if activity.createdAt == time then [activity] + AtTime(sorted, time) else AtTime(sorted, time)
  {
    if sorted == [] || activity.createdAt <= sorted[0].createdAt {
      AtTimeOfCons(activity, sorted, time);
    } else {
      var first, rest := sorted[0], sorted[1..];
      assert sorted == [first] + rest;
      InsertIsStable(activity, rest, time);
      AtTimeOfCons(first, rest, time);
      AtTimeOfCons(first, InsertInOrder(activity, rest), time);
    }
  }

  /** Activities of equal time keep the order of the window. */
  lemma {:induction false} OrderIsStable(activities: seq<Activity>, time: int)
    ensures AtTime(InOrder(activities), time) == AtTime(activities, time)
  {
    if activities != [] {
      var first, rest := activities[0], activities[1..];
      assert activities == [first] + rest;
      OrderIsStable(rest, time);
      InsertIsStable(first, InOrder(rest), time);
      AtTimeOfCons(first, rest, time);
    }
  }

  lemma {:induction false} NothingSeen(candidates: seq<Activity>, seen: set<string>)
    requires forall activity | activity in candidates :: activity.id != "" && activity.id !in seen
    ensures Unseen(candidates, seen) == candidates
  {
    if candidates != [] {
      assert candidates == [candidates[0]] + candidates[1..];
      NothingSeen(candidates[1..], seen);
    }
  }

  // ---- A growing log, looked at through suffix windows ----

  predicate DistinctIds(entries: seq<Activity>) {
    && (forall i | 0 <= i < |entries| :: entries[i].id != "")
    && (forall i, j | 0 <= i < j < |entries| :: entries[i].id != entries[j].id)
  }

  /** One poll: at its time the log is entries[..end], and its window is the suffix from start. */
  datatype Look = Look(start: nat, end: nat, failAt: Option<nat>)

  /** Windows are suffixes of a log that never shrinks. */
  predicate Grows(size: nat, looks: seq<Look>, total: nat) {
    && (forall i | 0 <= i < |looks| :: looks[i].start <= looks[i].end <= total && size <= looks[i].end)
    && (forall i, j | 0 <= i < j < |looks| :: looks[i].end <= looks[j].end)
  }

  /** Polls until the first error: the subscription ends there and a new one initialises again. */
  function RunPolls(s: State, entries: seq<Activity>, looks: seq<Look>, max: nat): Poll
    requires forall i | 0 <= i < |looks| :: looks[i].start <= looks[i].end <= |entries|
  {
    if looks == [] then Poll(s, [], None)
    else
      var last := looks[|looks| - 1];
      var earlier := RunPolls(s, entries, looks[..|looks| - 1], max);
      if earlier.error.Some? then earlier
      else
        var poll := PollWindow(earlier.state, entries[last.start..last.end], last.failAt, max);
        Poll(poll.state, earlier.presented + poll.presented, poll.error)
  }

  /** How far the log has been covered: the end of the last window that was not empty. */
  function Covered(size: nat, looks: seq<Look>): nat {
    if looks == [] then size
    else
      var last := looks[|looks| - 1];
      if last.start < last.end then last.end else Covered(size, looks[..|looks| - 1])
  }

  /** The cursor stands on entry p - 1, and no later entry has been seen. */
  ghost predicate At(s: State, entries: seq<Activity>, p: nat) {
    && 0 < p <= |entries| && s.cursor == Some(entries[p - 1].id)
    && forall i | p <= i < |entries| :: entries[i].id !in s.seen
  }

  lemma CursorInWindow(entries: seq<Activity>, p: nat, start: nat, end: nat)
    requires DistinctIds(entries) && 0 < p <= end <= |entries| && start <= end
    ensures var index := LastIndex(entries[start..end], entries[p - 1].id);
            if start < p then index == Some(p - 1 - start) else index == None
  {
    var window := entries[start..end];
    if start < p {
      assert window[p - 1 - start].id == entries[p - 1].id;
      var index := LastIndex(window, entries[p - 1].id);
      assert index.Some?;
      assert window[index.value] == entries[start + index.value];
    }
  }

  lemma LaterEntriesAreNew(s: State, entries: seq<Activity>, p: nat, end: nat, seen: set<string>)
    requires DistinctIds(entries) && At(s, entries, p) && p <= end <= |entries| && seen <= s.seen
    ensures Unseen(entries[p..end], seen) == entries[p..end]
  {
    var later := entries[p..end];
    forall activity | activity in later ensures activity.id != "" && activity.id !in seen {
      var i :| 0 <= i < |later| && later[i] == activity;
      assert entries[p + i] == activity;
    }
    NothingSeen(later, seen);
  }

  lemma CandidatesFromCursor(s: State, entries: seq<Activity>, p: nat, start: nat, end: nat, max: nat)
    requires DistinctIds(entries) && At(s, entries, p) && start < end <= |entries| && p <= end
    ensures var later := entries[p..end];
            Candidates(s, entries[start..end], max)
            == if start >= p || end - p > max then (s, Err(WindowGap))
               else (s.(seen := s.seen * Ids(later)), Ok(later))
  {
    CursorInWindow(entries, p, start, end);
    if start < p {
      assert entries[start..end][p - start..] == entries[p..end];
    }
  }

  lemma LaterIdsUnseen(s: State, entries: seq<Activity>, p: nat, end: nat, ordered: seq<Activity>, seen: set<string>)
    requires DistinctIds(entries) && At(s, entries, p) && p <= end <= |entries|
    requires ordered == InOrder(entries[p..end]) && seen <= s.seen
    ensures forall i | end <= i < |entries| :: entries[i].id !in seen + Ids(ordered)
  {
    OrderKeepsActivities(entries[p..end]);
    forall i | end <= i < |entries| ensures entries[i].id !in seen + Ids(ordered) {
      forall activity | activity in ordered ensures activity.id != entries[i].id {
        assert activity in multiset(ordered);
        assert activity in multiset(entries[p..end]);
        var j :| 0 <= j < end - p && entries[p..end][j] == activity;
        assert entries[p + j] == activity;
      }
    }
  }

  /** What a poll with the cursor at p presents of the ordered new entries, and with which error. */
  function Expected(ordered: seq<Activity>, p: nat, look: Look, max: nat): (seq<Activity>, Option<PollError>) {
    if look.start == look.end then ([], None)
    else if look.start >= p || look.end - p > max then ([], Some(WindowGap))
    else if look.failAt.Some? && look.failAt.value < |ordered| then
      (ordered[..look.failAt.value], Some(PresenterFailed))
    else (ordered, None)
  }

  /**
    The whole behaviour of one poll with the cursor at p: an empty window presents nothing; a window
    without the cursor, or with too many new entries, is a gap; and otherwise the new entries are
    exactly entries[p..end], all presented unless the presenter raises.
   */
  lemma PollFromCursor(s: State, entries: seq<Activity>, p: nat, look: Look, max: nat)
    requires DistinctIds(entries) && At(s, entries, p)
    requires look.start <= look.end <= |entries| && p <= look.end
    ensures var poll := PollWindow(s, entries[look.start..look.end], look.failAt, max);
            && (poll.presented, poll.error) == Expected(InOrder(entries[p..look.end]), p, look, max)
            && (poll.error.None? ==> At(poll.state, entries, if look.start == look.end then p else look.end))
  {
    var window := entries[look.start..look.end];
    if look.start == look.end {
      assert window == [];
      EmptyPoll(s, look.failAt, max);
    } else {
      CandidatesFromCursor(s, entries, p, look.start, look.end, max);
      if look.start < p && look.end - p <= max {
        PollNewEntries(s, entries, p, look, max);
      }
    }
  }

  lemma PollNewEntries(s: State, entries: seq<Activity>, p: nat, look: Look, max: nat)
    requires DistinctIds(entries) && At(s, entries, p)
    requires look.start < p <= look.end <= |entries| && look.start < look.end && look.end - p <= max
    ensures var poll := PollWindow(s, entries[look.start..look.end], look.failAt, max);
            && (poll.presented, poll.error) == Expected(InOrder(entries[p..look.end]), p, look, max)
            && (poll.error.None? ==> At(poll.state, entries, look.end))
  {
    var window := entries[look.start..look.end];
    var seen := s.seen * Ids(entries[p..look.end]);
    var ordered := InOrder(entries[p..look.end]);
    CandidatesFromCursor(s, entries, p, look.start, look.end, max);
    LaterEntriesAreNew(s, entries, p, look.end, seen);
    assert PollWindow(s, window, look.failAt, max) == Present(s.(seen := seen), ordered, window, look.failAt);
    LaterIdsUnseen(s, entries, p, look.end, ordered, seen);
    PresentMovesCursor(s.(seen := seen), ordered, entries, look);
  }

  lemma PresentMovesCursor(looked: State, ordered: seq<Activity>, entries: seq<Activity>, look: Look)
    requires DistinctIds(entries) && look.start < look.end <= |entries|
    requires forall i | look.end <= i < |entries| :: entries[i].id !in looked.seen + Ids(ordered)
    ensures var poll := Present(looked, ordered, entries[look.start..look.end], look.failAt);
            poll.error.None? ==> At(poll.state, entries, look.end)
  {
    var window := entries[look.start..look.end];
    assert window[|window| - 1] == entries[look.end - 1];
  }

  lemma EmptyPoll(s: State, failAt: Option<nat>, max: nat)
    requires s.cursor.Some?
    ensures PollWindow(s, [], failAt, max) == Poll(s, [], None)
  {
    assert Ids([]) == {};
    assert s.seen + {} == s.seen;
  }

  lemma ExpectedIsPart(ordered: seq<Activity>, part: seq<Activity>, p: nat, look: Look, max: nat)
    requires multiset(ordered) == multiset(part) && look.start <= look.end
    ensures var (presented, error) := Expected(ordered, p, look, max);
            && multiset(presented) <= multiset(part)
            && (error.None? && look.start < look.end ==> multiset(presented) == multiset(part))
  {
    if look.failAt.Some? && look.failAt.value < |ordered| {
      PrefixIsPart(ordered, look.failAt.value);
    }
  }

  lemma PrefixIsPart(activities: seq<Activity>, n: nat)
    requires n <= |activities|
    ensures multiset(activities[..n]) <= multiset(activities)
  {
    assert activities == activities[..n] + activities[n..];
  }

  lemma InitializedAt(s: State, entries: seq<Activity>, start: nat, end: nat)
    requires DistinctIds(entries) && start < end <= |entries|
    ensures At(Initialized(s, entries[start..end]), entries, end)
  {
  }

  /**
    From an initialisation on a non-empty window that ends at `end`, until the first error, the polls
    present exactly the later entries they have covered, once each; a poll that ends in an error adds at
    most a part of the entries it saw, still once each.
   */
  lemma {:induction false} EachEntryOnce(
    s: State, entries: seq<Activity>, start: nat, end: nat, looks: seq<Look>, max: nat)
    requires DistinctIds(entries) && start < end <= |entries| && Grows(end, looks, |entries|)
    ensures var run := RunPolls(Initialized(s, entries[start..end]), entries, looks, max);
            && end <= Covered(end, looks) <= |entries|
            && (run.error.None? ==> multiset(run.presented) == multiset(entries[end..Covered(end, looks)])
                                    && At(run.state, entries, Covered(end, looks)))
            && (run.error.Some? ==> multiset(run.presented) <= multiset(entries[end..]))
    decreases |looks|
  {
    var s0 := Initialized(s, entries[start..end]);
    if looks == [] {
      InitializedAt(s, entries, start, end);
    } else {
      var before, look := looks[..|looks| - 1], looks[|looks| - 1];
      EachEntryOnce(s, entries, start, end, before, max);
      var earlier := RunPolls(s0, entries, before, max);
      CoveredBelow(end, before, look.end);
      if earlier.error.None? {
        var p := Covered(end, before);
        PollFromCursor(earlier.state, entries, p, look, max);
        OrderKeepsActivities(entries[p..look.end]);
        ExpectedIsPart(InOrder(entries[p..look.end]), entries[p..look.end], p, look, max);
        var poll := PollWindow(earlier.state, entries[look.start..look.end], look.failAt, max);
        JoinParts(entries, end, p, look.end, earlier.presented, poll.presented);
      }
    }
  }

  lemma JoinParts(
    entries: seq<Activity>, from: nat, middle: nat, to: nat, first: seq<Activity>, second: seq<Activity>)
    requires from <= middle <= to <= |entries|
    requires multiset(first) == multiset(entries[from..middle]) && multiset(second) <= multiset(entries[middle..to])
    ensures multiset(first + second) <= multiset(entries[from..])
    ensures multiset(second) == multiset(entries[middle..to]) ==>
        multiset(first + second) == multiset(entries[from..to])
    ensures second == [] ==> first + second == first
  {
    assert entries[from..to] == entries[from..middle] + entries[middle..to];
    assert entries[from..] == entries[from..to] + entries[to..];
  }

  lemma {:induction false} CoveredBelow(size: nat, looks: seq<Look>, end: nat)
    requires size <= end && forall i | 0 <= i < |looks| :: looks[i].end <= end
    ensures Covered(size, looks) <= end
    decreases |looks|
  {
    if looks != [] {
      CoveredBelow(size, looks[..|looks| - 1], end);
    }
  }

  // ---- The adapter's presentation state ----

  class PresentationState {
    const maxSeenIdentities: nat
    var seenActivityIds: set<string>
    var activityCursorId: Option<string>

    constructor (maxSeenIdentities: nat)
      ensures this.maxSeenIdentities == maxSeenIdentities && Fields() == State(None, {})
    {
      this.maxSeenIdentities := maxSeenIdentities;
      seenActivityIds, activityCursorId := {}, None;
    }

    function Fields(): State
      reads this
    {
      State(activityCursorId, seenActivityIds)
    }

    method FindCursor(activities: seq<Activity>, cursorId: string) returns (index: Option<nat>)
      ensures index == LastIndex(activities, cursorId)
    {
      var i := |activities|;
      while i > 0
        invariant 0 <= i <= |activities|
        invariant LastIndex(activities[..i], cursorId) == LastIndex(activities, cursorId)
      {
        i := i - 1;
        assert activities[..i + 1][..i] == activities[..i];
        if activities[i].id == cursorId {
          return Some(i);
        }
      }
      index := None;
    }

    method NewActivities(activities: seq<Activity>, initialize: bool)
      returns (result: Result<seq<Activity>, PollError>)
      modifies this
      ensures initialize ==> result == Ok([]) && Fields() == Initialized(old(Fields()), activities)
      ensures !initialize ==> (Fields(), result) == Candidates(old(Fields()), activities, maxSeenIdentities)
    {
      if initialize {
        seenActivityIds := {};
        if activities != [] {
          var finalId := activities[|activities| - 1].id;
          activityCursorId := if finalId == "" then None else Some(finalId);
        }
        return Ok([]);
      }
      var candidates := activities;
      if activityCursorId.Some? {
        var cursorIndex := FindCursor(activities, activityCursorId.value);
        if cursorIndex.None? {
          return if activities == [] then Ok([]) else Err(WindowGap);
        }
        candidates := activities[cursorIndex.value + 1..];
      }
      if |candidates| > maxSeenIdentities {
        return Err(WindowGap);
      }
      seenActivityIds := seenActivityIds * Ids(candidates);
      result := Ok(candidates);
    }

    /** One poll of an initialised Thread; the presenter raises on activity number `failAt`, if any. */
    method PublishActivities(allActivities: seq<Activity>, failAt: Option<nat>)
      returns (presented: seq<Activity>, error: Option<PollError>)
      modifies this
      ensures Poll(Fields(), presented, error) == PollWindow(old(Fields()), allActivities, failAt, maxSeenIdentities)
    {
      presented := [];
      var result := NewActivities(allActivities, false);
      if result.Err? {
        return [], Some(result.error);
      }
      var candidates := result.value;
      ghost var looked := Fields();
      var ordered := InOrder(Unseen(candidates, seenActivityIds));
      for i := 0 to |ordered|
        invariant presented == ordered[..i] && (failAt.Some? ==> i <= failAt.value)
        invariant Fields() == looked.(seen := looked.seen + Ids(ordered[..i]))
      {
        if failAt == Some(i) {
          return presented, Some(PresenterFailed);
        }
        assert ordered[..i + 1] == ordered[..i] + [ordered[i]];
        seenActivityIds := seenActivityIds + Ids([ordered[i]]);
        presented := presented + [ordered[i]];
      }
      assert ordered[..|ordered|] == ordered;
      if allActivities != [] {
        var finalActivityId := allActivities[|allActivities| - 1].id;
        if finalActivityId != "" {
          activityCursorId := Some(finalActivityId);
        }
      }
      error := None;
    }
  }
}
