/**
  Initialising a Thread again, as a new subscription does after an error.  A non-empty window
  moves the cursor to its end; an empty one forgets the seen ids and keeps the cursor, whatever it was.
 */
module T3CursorRestart {
  import opened T3Cursor
  import opened Wrappers

  // ---- The first poll after an initialisation on an empty window, for any earlier state ----

  /** What a poll without a cursor presents of its ordered window, and with which error. */
  function ExpectedWhole(ordered: seq<Activity>, look: Look, max: nat): (seq<Activity>, Option<PollError>) {
    if |ordered| > max then ([], Some(WindowGap))
    else if look.failAt.Some? && look.failAt.value < |ordered| then
      (ordered[..look.failAt.value], Some(PresenterFailed))
    else (ordered, None)
  }

  lemma WindowIdsAreTexts(entries: seq<Activity>, start: nat, end: nat)
    requires DistinctIds(entries) && start <= end <= |entries|
    ensures forall activity | activity in entries[start..end] :: activity.id != ""
  {
    forall activity | activity in entries[start..end] ensures activity.id != "" {
      var i :| 0 <= i < end - start && entries[start..end][i] == activity;
      assert entries[start + i] == activity;
    }
  }

  lemma PollWithoutCursor(seen: set<string>, window: seq<Activity>, look: Look, max: nat)
    requires forall activity | activity in window :: activity.id != "" && activity.id !in seen
    ensures var poll := PollWindow(State(None, seen), window, look.failAt, max);
            && (poll.presented, poll.error) == ExpectedWhole(InOrder(window), look, max)
            && (poll.error.None? ==>
                  poll.state == Advanced(State(None, seen * Ids(window) + Ids(InOrder(window))), window))
  {
    var looked := seen * Ids(window);
    OrderKeepsActivities(window);
    assert |multiset(window)| == |window| && |multiset(InOrder(window))| == |InOrder(window)|;
    NothingSeen(window, looked);
    if |window| <= max {
      assert PollWindow(State(None, seen), window, look.failAt, max)
             == Present(State(None, looked), InOrder(window), window, look.failAt);
    }
  }

  /**
    Without an earlier cursor the next window is taken as a whole; that is the whole log exactly if the
    window starts at its beginning.
   */
  lemma EmptyStartTakesWholeWindow(s: State, entries: seq<Activity>, look: Look, max: nat)
    requires DistinctIds(entries) && look.start <= look.end <= |entries| && s.cursor.None?
    ensures var poll := PollWindow(Initialized(s, []), entries[look.start..look.end], look.failAt, max);
            && (poll.presented, poll.error) == ExpectedWhole(InOrder(entries[look.start..look.end]), look, max)
            && (poll.error.None? ==>
                  (multiset(poll.presented) == multiset(entries[..look.end]) <==> look.start == 0))
  {
    WindowIdsAreTexts(entries, look.start, look.end);
    PollWithoutCursor({}, entries[look.start..look.end], look, max);
    OrderKeepsActivities(entries[look.start..look.end]);
    WholeLogOnlyFromStart(entries, look.start, look.end);
  }

  lemma WholeLogOnlyFromStart(entries: seq<Activity>, start: nat, end: nat)
    requires start <= end <= |entries|
    ensures multiset(entries[start..end]) == multiset(entries[..end]) <==> start == 0
  {
    if start == 0 {
      assert entries[start..end] == entries[..end];
    } else {
      assert |multiset(entries[..end])| == end;
      assert |multiset(entries[start..end])| == end - start;
    }
  }

  /** With an earlier cursor on entry p - 1 the polls go on from p, or report the gap, as if nothing had been seen. */
  lemma EmptyStartKeepsCursor(s: State, entries: seq<Activity>, p: nat, look: Look, max: nat)
    requires DistinctIds(entries) && look.start <= look.end <= |entries|
    requires 0 < p <= look.end && s.cursor == Some(entries[p - 1].id)
    ensures var poll := PollWindow(Initialized(s, []), entries[look.start..look.end], look.failAt, max);
            && (poll.presented, poll.error) == Expected(InOrder(entries[p..look.end]), p, look, max)
            && (poll.error.None? ==> At(poll.state, entries, if look.start == look.end then p else look.end))
  {
    PollFromCursor(Initialized(s, []), entries, p, look, max);
  }

  /** With an earlier cursor that the window does not show, a non-empty window is a gap. */
  lemma EmptyStartReportsLostCursor(s: State, window: seq<Activity>, look: Look, max: nat)
    requires s.cursor.Some? && forall activity | activity in window :: activity.id != s.cursor.value
    ensures var poll := PollWindow(Initialized(s, []), window, look.failAt, max);
            poll.presented == [] && poll.error == if window == [] then None else Some(WindowGap)
  {
    assert LastIndex(window, s.cursor.value).None?;
    if window == [] {
      EmptyPoll(Initialized(s, []), look.failAt, max);
    }
  }

  // ---- A presenter failure and then an empty window ----

  lemma LogPartsAreDisjoint(entries: seq<Activity>, from: nat, middle: nat, to: nat, activity: Activity)
    requires DistinctIds(entries) && from <= middle <= to <= |entries|
    ensures !(activity in entries[from..middle] && activity in entries[middle..to])
  {
  }

  lemma PartsComeFromLog(ordered: seq<Activity>, part: seq<Activity>)
    requires multiset(part) <= multiset(ordered)
    ensures forall activity | activity in part :: activity in ordered
  {
    forall activity | activity in part ensures activity in ordered {
      assert activity in multiset(part);
      assert activity in multiset(ordered);
    }
  }

  /** A poll with the cursor at p presents nothing before p, and all from p on if it succeeds on a non-empty window. */
  lemma PollPresentsFrom(s: State, entries: seq<Activity>, p: nat, look: Look, max: nat)
    requires DistinctIds(entries) && At(s, entries, p) && look.start <= look.end <= |entries| && p <= look.end
    ensures var poll := PollWindow(s, entries[look.start..look.end], look.failAt, max);
            && multiset(poll.presented) <= multiset(entries[p..look.end])
            && (poll.error.None? ==>
                  multiset(poll.presented)
                  == if look.start < look.end then multiset(entries[p..look.end]) else multiset{})
  {
    PollFromCursor(s, entries, p, look, max);
    OrderKeepsActivities(entries[p..look.end]);
    ExpectedIsPart(InOrder(entries[p..look.end]), entries[p..look.end], p, look, max);
  }

  lemma UnseenWindow(seen: set<string>, entries: seq<Activity>, look: Look, max: nat)
    requires DistinctIds(entries) && look.start <= look.end <= |entries|
    requires forall i | 0 <= i < |entries| :: entries[i].id !in seen
    ensures var window := entries[look.start..look.end];
            var poll := PollWindow(State(None, seen), window, look.failAt, max);
            && (poll.presented, poll.error) == ExpectedWhole(InOrder(window), look, max)
            && (poll.error.None? ==>
                  poll.state == Advanced(State(None, seen * Ids(window) + Ids(InOrder(window))), window))
  {
    var window := entries[look.start..look.end];
    WindowIdsAreTexts(entries, look.start, look.end);
    forall activity | activity in window ensures activity.id !in seen {
      var i :| 0 <= i < |window| && window[i] == activity;
      assert entries[look.start + i] == activity;
    }
    PollWithoutCursor(seen, window, look, max);
  }

  lemma ExpectedWholeIsPart(ordered: seq<Activity>, look: Look, max: nat)
    ensures multiset(ExpectedWhole(ordered, look, max).0) <= multiset(ordered)
    ensures ExpectedWhole(ordered, look, max).1 == Some(WindowGap) ==> ExpectedWhole(ordered, look, max).0 == []
  {
    if look.failAt.Some? && look.failAt.value < |ordered| {
      PrefixIsPart(ordered, look.failAt.value);
    }
  }

  /** The cursor behind a whole window that was presented. */
  lemma AdvancedBehind(s: State, entries: seq<Activity>, look: Look, seen: set<string>)
    requires DistinctIds(entries) && look.start <= look.end <= |entries|
    requires forall i | 0 <= i < |entries| :: entries[i].id !in seen
    requires var window := entries[look.start..look.end]; s.seen == seen * Ids(window) + Ids(InOrder(window))
    ensures var after := Advanced(s, entries[look.start..look.end]);
            if look.start < look.end then At(after, entries, look.end)
            else after == s && s.seen <= seen && InOrder(entries[look.start..look.end]) == []
  {
    var window := entries[look.start..look.end];
    if look.start < look.end {
      assert window[|window| - 1] == entries[look.end - 1];
      LaterThanWindow(entries, look.start, look.end);
    } else {
      assert window == [] && InOrder([]) == [] && Ids([]) == {};
    }
  }

  lemma LaterThanWindow(entries: seq<Activity>, start: nat, end: nat)
    requires DistinctIds(entries) && start <= end <= |entries|
    ensures forall i | end <= i < |entries| :: entries[i].id !in Ids(InOrder(entries[start..end]))
  {
    var window := entries[start..end];
    OrderKeepsActivities(window);
    forall i | end <= i < |entries| ensures entries[i].id !in Ids(InOrder(window)) {
      forall activity | activity in InOrder(window) ensures activity.id != entries[i].id {
        assert activity in multiset(InOrder(window));
        assert activity in multiset(window);
        var j :| 0 <= j < end - start && window[j] == activity;
        assert entries[start + j] == activity;
      }
    }
  }

  /**
    The cursor stands on entry p - 1, or there is none yet and p is 0; in both cases nothing from p on has been seen.
   */
  ghost predicate StandsAt(s: State, entries: seq<Activity>, p: nat) {
    if p == 0 then s.cursor.None? && forall i | 0 <= i < |entries| :: entries[i].id !in s.seen else At(s, entries, p)
  }

  /** Where the new entries of a window begin: behind the cursor, or without one at the start of the window. */
  function NewFrom(p: nat, look: Look): nat { if p == 0 then look.start else p }

  lemma WholePollPresents(s: State, entries: seq<Activity>, look: Look, max: nat)
    requires DistinctIds(entries) && StandsAt(s, entries, 0) && look.start <= look.end <= |entries|
    ensures var poll := PollWindow(s, entries[look.start..look.end], look.failAt, max);
            && multiset(poll.presented) <= multiset(entries[look.start..look.end])
            && (poll.error.None? ==> multiset(poll.presented) == multiset(entries[look.start..look.end]))
            && (poll.error.None? ==> StandsAt(poll.state, entries, if look.start < look.end then look.end else 0))
  {
    var window := entries[look.start..look.end];
    assert s == State(None, s.seen);
    UnseenWindow(s.seen, entries, look, max);
    OrderKeepsActivities(window);
    ExpectedWholeIsPart(InOrder(window), look, max);
    if PollWindow(s, window, look.failAt, max).error.None? {
      AdvancedBehind(State(None, s.seen * Ids(window) + Ids(InOrder(window))), entries, look, s.seen);
    }
  }

  /** What a poll presents, with or without a cursor, and where it leaves the cursor. */
  lemma PollPresents(s: State, entries: seq<Activity>, p: nat, look: Look, max: nat)
    requires DistinctIds(entries) && StandsAt(s, entries, p) && look.start <= look.end <= |entries| && p <= look.end
    ensures var poll := PollWindow(s, entries[look.start..look.end], look.failAt, max);
            && multiset(poll.presented) <= multiset(entries[NewFrom(p, look)..look.end])
            && (poll.error.None? ==>
                  && multiset(poll.presented)
                     == (if look.start < look.end then multiset(entries[NewFrom(p, look)..look.end]) else multiset{})
                  && (look.start < look.end && p > 0 ==> look.start < p)
                  && StandsAt(poll.state, entries, if look.start < look.end then look.end else p))
  {
    if p == 0 {
      WholePollPresents(s, entries, look, max);
      assert look.start == look.end ==> entries[look.start..look.end] == [];
    } else {
      PollPresentsFrom(s, entries, p, look, max);
      PollFromCursor(s, entries, p, look, max);
    }
  }

  predicate CursorAt(cursor: Option<string>, entries: seq<Activity>, p: nat) {
    p <= |entries| && if p == 0 then cursor.None? else cursor == Some(entries[p - 1].id)
  }

  lemma EmptyRestartStandsAt(s: State, entries: seq<Activity>, p: nat)
    requires CursorAt(s.cursor, entries, p)
    ensures StandsAt(Initialized(s, []), entries, p)
  {
  }

  /** The poll of a later window after an initialisation on an empty one. */
  function Restarted(s: State, entries: seq<Activity>, later: Look, max: nat): T3Cursor.Poll
    requires later.start <= later.end <= |entries|
  {
    PollWindow(Initialized(s, []), entries[later.start..later.end], later.failAt, max)
  }

  /** What a successful restart presents, by the cursor that it finds. */
  lemma RestartPresents(s: State, entries: seq<Activity>, p: nat, later: Look, max: nat)
    requires DistinctIds(entries) && later.start <= later.end <= |entries| && p <= later.end
    requires CursorAt(s.cursor, entries, p)
    requires Restarted(s, entries, later, max).error.None?
    ensures multiset(Restarted(s, entries, later, max).presented)
            == if later.start < later.end then multiset(entries[NewFrom(p, later)..later.end]) else multiset{}
    ensures later.start < later.end && p > 0 ==> later.start < p
  {
    EmptyRestartStandsAt(s, entries, p);
    PollPresents(Initialized(s, []), entries, p, later, max);
  }

  lemma StandsAtCursor(s: State, entries: seq<Activity>, p: nat)
    requires StandsAt(s, entries, p) && p <= |entries|
    ensures CursorAt(s.cursor, entries, p)
  {
  }

  lemma PollMovesTo(s: State, entries: seq<Activity>, p: nat, look: Look, max: nat)
    requires DistinctIds(entries) && StandsAt(s, entries, p) && look.start <= look.end <= |entries| && p <= look.end
    requires PollWindow(s, entries[look.start..look.end], look.failAt, max).error.None?
    ensures var poll := PollWindow(s, entries[look.start..look.end], look.failAt, max);
            CursorAt(poll.state.cursor, entries, if look.start < look.end then look.end else p)
    ensures multiset(PollWindow(s, entries[look.start..look.end], look.failAt, max).presented)
            == if look.start < look.end then multiset(entries[NewFrom(p, look)..look.end]) else multiset{}
  {
    PollPresents(s, entries, p, look, max);
    var q := if look.start < look.end then look.end else p;
    StandsAtCursor(PollWindow(s, entries[look.start..look.end], look.failAt, max).state, entries, q);
  }

  lemma RestartAfterSuccess(s: State, entries: seq<Activity>, p: nat, look: Look, later: Look, max: nat)
    requires DistinctIds(entries) && StandsAt(s, entries, p)
    requires look.start <= look.end <= later.end <= |entries| && p <= look.end && later.start <= later.end
    requires var first := PollWindow(s, entries[look.start..look.end], look.failAt, max);
             first.error.None? && Restarted(first.state, entries, later, max).error.None?
    ensures var first := PollWindow(s, entries[look.start..look.end], look.failAt, max);
            var second := Restarted(first.state, entries, later, max);
            forall activity :: !(activity in first.presented && activity in second.presented)
  {
    var first := PollWindow(s, entries[look.start..look.end], look.failAt, max);
    PollMovesTo(s, entries, p, look, max);
    var q := if look.start < look.end then look.end else p;
    RestartPresents(first.state, entries, q, later, max);
    SucceededPartsAreDisjoint(
      entries, p, look, later, first.presented, Restarted(first.state, entries, later, max).presented);
  }

  /** After an error the restart goes on from the same cursor, and repeats what its window shows. */
  lemma RestartAfterError(s: State, entries: seq<Activity>, p: nat, look: Look, later: Look, max: nat)
    requires DistinctIds(entries) && StandsAt(s, entries, p)
    requires look.start <= look.end <= later.end <= |entries| && p <= look.end && later.start <= later.end
    requires var first := PollWindow(s, entries[look.start..look.end], look.failAt, max);
             first.error.Some? && Restarted(first.state, entries, later, max).error.None?
    ensures var first := PollWindow(s, entries[look.start..look.end], look.failAt, max);
            var second := Restarted(first.state, entries, later, max);
            forall activity | activity in first.presented ::
              activity in second.presented <==> activity in entries[later.start..later.end]
  {
    var first := PollWindow(s, entries[look.start..look.end], look.failAt, max);
    PollPresents(s, entries, p, look, max);
    FailedPollKeepsCursor(s, entries[look.start..look.end], look.failAt, max);
    StandsAtCursor(s, entries, p);
    RestartPresents(first.state, entries, p, later, max);
    RepeatsWhatIsShown(entries, p, look, later, first.presented, Restarted(first.state, entries, later, max).presented);
  }

  /**
    A poll, an initialisation on an empty window, and a successful poll of a later window: an activity is
    presented twice exactly if the presenter failed after it had presented one that the later window shows.
   */
  lemma EmptyRestartRepeatsExactly(s: State, entries: seq<Activity>, p: nat, look: Look, later: Look, max: nat)
    requires DistinctIds(entries) && StandsAt(s, entries, p)
    requires look.start <= look.end <= later.end <= |entries| && p <= look.end && later.start <= later.end
    requires var first := PollWindow(s, entries[look.start..look.end], look.failAt, max);
             Restarted(first.state, entries, later, max).error.None?
    ensures var first := PollWindow(s, entries[look.start..look.end], look.failAt, max);
            var second := Restarted(first.state, entries, later, max);
            (exists activity :: activity in first.presented && activity in second.presented)
            <==> first.error == Some(PresenterFailed)
                 && exists activity :: activity in first.presented && activity in entries[later.start..later.end]
  {
    var first := PollWindow(s, entries[look.start..look.end], look.failAt, max);
    if first.error.None? {
      RestartAfterSuccess(s, entries, p, look, later, max);
    } else {
      RestartAfterError(s, entries, p, look, later, max);
      OnlyPresenterFailuresPresent(s, entries[look.start..look.end], look.failAt, max);
    }
  }

  lemma SucceededPartsAreDisjoint(
    entries: seq<Activity>, p: nat, look: Look, later: Look, first: seq<Activity>, second: seq<Activity>)
    requires DistinctIds(entries) && look.start <= look.end <= later.end <= |entries| && p <= look.end
    requires later.start <= later.end
    requires multiset(first)
             == if look.start < look.end then multiset(entries[NewFrom(p, look)..look.end]) else multiset{}
    requires look.start < look.end ==>
               multiset(second)
               == if later.start < later.end then multiset(entries[look.end..later.end]) else multiset{}
    ensures forall activity :: !(activity in first && activity in second)
  {
    if look.start < look.end && later.start < later.end {
      PartsComeFromLog(entries[NewFrom(p, look)..look.end], first);
      PartsComeFromLog(entries[look.end..later.end], second);
      forall activity ensures !(activity in first && activity in second) {
        LogPartsAreDisjoint(entries, NewFrom(p, look), look.end, later.end, activity);
      }
    } else {
      assert |multiset(first)| == |first| && |multiset(second)| == |second|;
    }
  }

  lemma OnlyPresenterFailuresPresent(s: State, window: seq<Activity>, failAt: Option<nat>, max: nat)
    ensures var poll := PollWindow(s, window, failAt, max);
            poll.error.Some? && poll.error != Some(PresenterFailed) ==> poll.presented == []
  {
  }

  /** A restart from the same cursor presents again exactly what its window shows of the earlier part. */
  lemma RepeatsWhatIsShown(
    entries: seq<Activity>, p: nat, look: Look, later: Look, first: seq<Activity>, second: seq<Activity>)
    requires look.start <= look.end <= later.end <= |entries| && p <= look.end && later.start <= later.end
    requires multiset(first) <= multiset(entries[NewFrom(p, look)..look.end])
    requires multiset(second)
             == if later.start < later.end then multiset(entries[NewFrom(p, later)..later.end]) else multiset{}
    requires later.start < later.end && p > 0 ==> later.start < p
    ensures forall activity | activity in first ::
              activity in second <==> activity in entries[later.start..later.end]
  {
    PartsComeFromLog(entries[NewFrom(p, look)..look.end], first);
    forall activity | activity in first ensures activity in second <==> activity in entries[later.start..later.end] {
      assert activity in second <==> activity in multiset(second);
      if later.start == later.end {
        assert entries[later.start..later.end] == [];
      } else if p > 0 {
        assert activity in entries[p..look.end];
        assert entries[p..later.end] == entries[p..look.end] + entries[look.end..later.end];
        assert entries[later.start..later.end] == entries[later.start..p] + entries[p..later.end];
        assert activity in multiset(entries[p..later.end]);
      }
    }
  }

  /** With a cursor, a successful poll of a non-empty window shows all that was presented from the cursor on. */
  lemma CursorRestartShowsAll(s: State, entries: seq<Activity>, p: nat, look: Look, later: Look, max: nat)
    requires DistinctIds(entries) && At(s, entries, p)
    requires look.start <= look.end <= later.end <= |entries| && p <= look.end && later.start < later.end
    requires var first := PollWindow(s, entries[look.start..look.end], look.failAt, max);
             first.error.Some? && Restarted(first.state, entries, later, max).error.None?
    ensures forall activity | activity in PollWindow(s, entries[look.start..look.end], look.failAt, max).presented ::
              activity in entries[later.start..later.end]
  {
    var first := PollWindow(s, entries[look.start..look.end], look.failAt, max);
    PollPresents(s, entries, p, look, max);
    PartsComeFromLog(entries[p..look.end], first.presented);
    FailedPollKeepsCursor(s, entries[look.start..look.end], look.failAt, max);
    StandsAtCursor(s, entries, p);
    RestartPresents(first.state, entries, p, later, max);
    PartIsShown(entries, p, look.end, later.start, later.end);
  }

  lemma PartIsShown(entries: seq<Activity>, p: nat, end: nat, start: nat, later: nat)
    requires start < p <= end <= later <= |entries|
    ensures forall activity | activity in entries[p..end] :: activity in entries[start..later]
  {
    assert entries[start..later] == entries[start..p] + entries[p..end] + entries[end..later];
  }

  lemma FailedPollKeepsCursor(s: State, window: seq<Activity>, failAt: Option<nat>, max: nat)
    ensures var poll := PollWindow(s, window, failAt, max); poll.error.Some? ==> poll.state.cursor == s.cursor
  {
  }

  /** Without a cursor a later window need not show what was presented: here nothing is presented twice. */
  lemma EmptyRestartMayNotRepeat()
    ensures var a, b, c := Activity("a", 0), Activity("b", 1), Activity("c", 2);
            var first := PollWindow(Initialized(State(None, {}), []), [a, b, c], Some(1), 8);
            var second := PollWindow(Initialized(first.state, []), [b, c], None, 8);
            && first.presented == [a] && first.error == Some(PresenterFailed)
            && second.presented == [b, c] && second.error.None?
  {
    var a, b, c := Activity("a", 0), Activity("b", 1), Activity("c", 2);
    var entries := [a, b, c];
    assert entries[1..3] == [b, c] && entries[0..3] == entries && entries[1..] == [b, c];
    OrderedAlready(a, b, c);
    UnseenWindow({}, entries, Look(0, 3, Some(1)), 8);
    FailedPollKeepsCursor(State(None, {}), entries, Some(1), 8);
    assert entries[..1] == [a];
    UnseenWindow({}, entries, Look(1, 3, None), 8);
  }

  lemma OrderedAlready(a: Activity, b: Activity, c: Activity)
    requires a.createdAt <= b.createdAt <= c.createdAt
    ensures InOrder([b, c]) == [b, c] && InOrder([a, b, c]) == [a, b, c]
  {
    assert [a, b, c][1..] == [b, c] && [b, c][1..] == [c] && [c][1..] == [];
    assert InOrder([c]) == [c] by { assert InOrder([]) == [] && [c] + [] == [c]; }
    assert InOrder([b, c]) == [b, c] by { assert InsertInOrder(b, [c]) == [b] + [c] == [b, c]; }
    assert InOrder([a, b, c]) == [a, b, c] by { assert InsertInOrder(a, [b, c]) == [a] + [b, c] == [a, b, c]; }
  }

  /** Here an activity is presented twice: the presenter fails on c after b, and the restart sees an empty window. */
  lemma EmptyRestartPresentsTwice()
    ensures var a, b, c := Activity("a", 0), Activity("b", 1), Activity("c", 2);
            var first := PollWindow(State(Some("a"), {}), [a, b, c], Some(1), 8);
            var second := PollWindow(Initialized(first.state, []), [a, b, c], None, 8);
            first.presented == [b] && first.error == Some(PresenterFailed)
            && second.presented == [b, c] && second.error.None?
  {
    var a, b, c := Activity("a", 0), Activity("b", 1), Activity("c", 2);
    var entries, s := [a, b, c], State(Some("a"), {});
    assert entries[1..3] == [b, c] && entries[0..3] == entries;
    OrderedAlready(a, b, c);
    PollFromCursor(s, entries, 1, Look(0, 3, Some(1)), 8);
    var first := PollWindow(s, entries, Some(1), 8);
    assert [b, c][..1] == [b];
    FailedPollKeepsCursor(s, entries, Some(1), 8);
    PollFromCursor(Initialized(first.state, []), entries, 1, Look(0, 3, None), 8);
  }

  // ---- Any number of restarts ----

  datatype Visit = Start(start: nat, end: nat) | Next(look: Look)

  function EndOf(visit: Visit): nat { if visit.Start? then visit.end else visit.look.end }

  function StartOf(visit: Visit): nat { if visit.Start? then visit.start else visit.look.start }

  /** Every visit sees a suffix of a log that never shrinks. */
  predicate OnGrowingLog(visits: seq<Visit>, total: nat) {
    && (forall i | 0 <= i < |visits| :: StartOf(visits[i]) <= EndOf(visits[i]) <= total)
    && (forall i, j | 0 <= i < j < |visits| :: EndOf(visits[i]) <= EndOf(visits[j]))
  }

  /**
    `polling` from an initialisation until an error; `covered` is where the cursor stands; `loose` is what was
    presented since the cursor moved there, by polls that failed, and `settled` what was presented before that.
   */
  datatype History = History(
    state: State, polling: bool, covered: nat, settled: seq<Activity>, loose: seq<Activity>)

  const NEW := History(State(None, {}), false, 0, [], [])

  /** All that was presented, in its order. */
  function Presented(h: History): seq<Activity> { h.settled + h.loose }

  function VisitOnce(h: History, visit: Visit, entries: seq<Activity>, max: nat): History
    requires StartOf(visit) <= EndOf(visit) <= |entries|
  {
    var window := entries[StartOf(visit)..EndOf(visit)];
    match visit
    case Start(start, end) =>
      if start < end then History(Initialized(h.state, window), true, end, Presented(h), [])
      else h.(state := Initialized(h.state, window), polling := true)
    case Next(look) =>
      if !h.polling then h else AfterPoll(h, look, PollWindow(h.state, window, look.failAt, max))
  }

  function AfterPoll(h: History, look: Look, poll: T3Cursor.Poll): History {
    if poll.error.None? && look.start < look.end then
      History(poll.state, true, look.end, Presented(h) + poll.presented, [])
    else h.(state := poll.state, polling := poll.error.None?, loose := h.loose + poll.presented)
  }

  function RunVisits(visits: seq<Visit>, entries: seq<Activity>, max: nat): History
    requires OnGrowingLog(visits, |entries|)
  {
    if visits == [] then NEW
    else VisitOnce(RunVisits(visits[..|visits| - 1], entries, max), visits[|visits| - 1], entries, max)
  }

  /** What a poll shows of the log, told from where the cursor stands and what the window covers. */
  function Shown(entries: seq<Activity>, p: nat, look: Look, max: nat): seq<Activity>
    requires look.start <= look.end <= |entries|
  {
    if p == 0 then ExpectedWhole(InOrder(entries[look.start..look.end]), look, max).0
    else if p <= look.end then Expected(InOrder(entries[p..look.end]), p, look, max).0
    else []
  }

  /** The cursor has not moved since a presenter failed, and a poll shows an activity of that part again. */
  ghost predicate ShowsLooseAgain(h: History, entries: seq<Activity>, look: Look, max: nat)
    requires look.start <= look.end <= |entries|
  {
    h.polling && exists activity :: activity in h.loose && activity in Shown(entries, h.covered, look, max)
  }

  ghost predicate SomePollShowsAgain(visits: seq<Visit>, entries: seq<Activity>, max: nat)
    requires OnGrowingLog(visits, |entries|)
    decreases |visits|
  {
    visits != [] &&
    var before, visit := visits[..|visits| - 1], visits[|visits| - 1];
    || SomePollShowsAgain(before, entries, max)
    || (visit.Next? && ShowsLooseAgain(RunVisits(before, entries, max), entries, visit.look, max))
  }

  /** After a presenter failure part-way through a window, the next poll comes after a restart on a non-empty one. */
  ghost predicate RestartsOnWindows(visits: seq<Visit>, entries: seq<Activity>, max: nat)
    requires OnGrowingLog(visits, |entries|)
    decreases |visits|
  {
    visits != [] ==>
      var before := visits[..|visits| - 1];
      && RestartsOnWindows(before, entries, max)
      && (visits[|visits| - 1].Next? && RunVisits(before, entries, max).polling ==>
            RunVisits(before, entries, max).loose == [])
  }

  predicate Within(part: seq<Activity>, entries: seq<Activity>) {
    forall activity | activity in part :: activity in entries
  }

  /** What is known between two visits, the latest of which saw the log up to `end`. */
  ghost predicate HistoryInv(h: History, entries: seq<Activity>, end: nat) {
    && h.covered <= end <= |entries| && CursorAt(h.state.cursor, entries, h.covered)
    && (h.polling ==> StandsAt(h.state, entries, h.covered))
    && Within(h.settled, entries[..h.covered]) && Within(h.loose, entries[h.covered..end])
  }

  lemma WithinLarger(part: seq<Activity>, entries: seq<Activity>, from: nat, to: nat, start: nat, end: nat)
    requires start <= from <= to <= end <= |entries| && Within(part, entries[from..to])
    ensures Within(part, entries[start..end])
  {
    assert entries[start..end] == entries[start..from] + entries[from..to] + entries[to..end];
  }

  lemma PresentedWithin(h: History, entries: seq<Activity>, end: nat)
    requires HistoryInv(h, entries, end)
    ensures Within(Presented(h), entries[..end])
  {
    assert entries[..end] == entries[..h.covered] + entries[h.covered..end];
  }

  lemma StartKeeps(h: History, entries: seq<Activity>, before: nat, start: nat, end: nat, max: nat)
    requires DistinctIds(entries) && HistoryInv(h, entries, before) && before <= end <= |entries| && start <= end
    ensures HistoryInv(VisitOnce(h, Start(start, end), entries, max), entries, end)
  {
    if start < end {
      PresentedWithin(h, entries, before);
      WithinLarger(Presented(h), entries, 0, before, 0, end);
      InitializedAt(h.state, entries, start, end);
    } else {
      assert entries[start..end] == [];
      EmptyRestartStandsAt(h.state, entries, h.covered);
      WithinLarger(h.loose, entries, h.covered, before, h.covered, end);
    }
  }

  lemma NextKeeps(h: History, entries: seq<Activity>, before: nat, look: Look, max: nat)
    requires DistinctIds(entries) && HistoryInv(h, entries, before) && h.polling
    requires before <= look.end <= |entries| && look.start <= look.end
    ensures HistoryInv(VisitOnce(h, Next(look), entries, max), entries, look.end)
  {
    var poll := PollWindow(h.state, entries[look.start..look.end], look.failAt, max);
    PollPresents(h.state, entries, h.covered, look, max);
    PartsComeFromLog(entries[NewFrom(h.covered, look)..look.end], poll.presented);
    WithinLarger(poll.presented, entries, NewFrom(h.covered, look), look.end, h.covered, look.end);
    WithinLarger(h.loose, entries, h.covered, before, h.covered, look.end);
    FailedPollKeepsCursor(h.state, entries[look.start..look.end], look.failAt, max);
    if poll.error.None? && look.start < look.end {
      StandsAtCursor(poll.state, entries, look.end);
      assert entries[..look.end] == entries[..h.covered] + entries[h.covered..look.end];
    } else if poll.error.None? {
      StandsAtCursor(poll.state, entries, h.covered);
    }
  }

  lemma {:induction false} RunKeepsHistory(visits: seq<Visit>, entries: seq<Activity>, end: nat, max: nat)
    requires DistinctIds(entries) && OnGrowingLog(visits, |entries|)
    requires end <= |entries| && forall i | 0 <= i < |visits| :: EndOf(visits[i]) <= end
    ensures HistoryInv(RunVisits(visits, entries, max), entries, end)
    decreases |visits|
  {
    if visits != [] {
      var before, visit := visits[..|visits| - 1], visits[|visits| - 1];
      RunKeepsHistory(before, entries, EndOf(visit), max);
      var h := RunVisits(before, entries, max);
      match visit {
        case Start(start, last) => StartKeeps(h, entries, last, start, last, max);
        case Next(look) =>
          if h.polling {
            NextKeeps(h, entries, look.end, look, max);
          }
      }
      InvGrows(VisitOnce(h, visit, entries, max), entries, EndOf(visit), end);
    }
  }

  lemma InvGrows(h: History, entries: seq<Activity>, before: nat, end: nat)
    requires HistoryInv(h, entries, before) && before <= end <= |entries|
    ensures HistoryInv(h, entries, end)
  {
    WithinLarger(h.loose, entries, h.covered, before, h.covered, end);
  }

  // ---- Exactly when an activity is presented twice ----

  ghost predicate OnceEach(activities: seq<Activity>) {
    forall activity :: multiset(activities)[activity] <= 1
  }

  lemma {:induction false} LogIsOnceEach(entries: seq<Activity>)
    requires DistinctIds(entries)
    ensures OnceEach(entries)
  {
    if entries != [] {
      var first, last := entries[..|entries| - 1], entries[|entries| - 1];
      LogIsOnceEach(first);
      assert entries == first + [last];
      assert last !in first;
    }
  }

  lemma OnceEachMeansPartOfLog(part: seq<Activity>, entries: seq<Activity>)
    requires DistinctIds(entries) && Within(part, entries)
    ensures OnceEach(part) <==> multiset(part) <= multiset(entries)
  {
    LogIsOnceEach(entries);
    forall activity | activity in part ensures multiset(entries)[activity] >= 1 {
      assert activity in entries;
    }
  }

  lemma OnceEachJoined(a: seq<Activity>, b: seq<Activity>)
    ensures OnceEach(a + b) <==> OnceEach(a) && OnceEach(b) && forall activity :: !(activity in a && activity in b)
  {
    assert forall activity :: multiset(a + b)[activity] == multiset(a)[activity] + multiset(b)[activity];
    assert forall activity :: activity in a <==> multiset(a)[activity] > 0;
    assert forall activity :: activity in b <==> multiset(b)[activity] > 0;
  }

  lemma PollIsShown(s: State, entries: seq<Activity>, p: nat, look: Look, max: nat)
    requires DistinctIds(entries) && StandsAt(s, entries, p) && look.start <= look.end <= |entries| && p <= look.end
    ensures PollWindow(s, entries[look.start..look.end], look.failAt, max).presented == Shown(entries, p, look, max)
  {
    if p == 0 {
      assert s == State(None, s.seen);
      UnseenWindow(s.seen, entries, look, max);
    } else {
      PollFromCursor(s, entries, p, look, max);
    }
  }

  /** One poll shows each entry once, and none from before the cursor. */
  lemma ShownIsNew(h: History, entries: seq<Activity>, before: nat, look: Look, max: nat)
    requires DistinctIds(entries) && HistoryInv(h, entries, before) && h.polling
    requires before <= look.end <= |entries| && look.start <= look.end
    ensures var shown := Shown(entries, h.covered, look, max);
            OnceEach(shown) && forall activity | activity in h.settled :: activity !in shown
  {
    var more, from := Shown(entries, h.covered, look, max), NewFrom(h.covered, look);
    PollPresents(h.state, entries, h.covered, look, max);
    PollIsShown(h.state, entries, h.covered, look, max);
    PartsComeFromLog(entries[from..look.end], more);
    WithinLarger(more, entries, from, look.end, h.covered, look.end);
    PollPartOfLog(more, entries, from, look.end);
    forall activity | activity in h.settled ensures activity !in more {
      LogPartsAreDisjoint(entries, 0, h.covered, look.end, activity);
    }
  }

  lemma RepeatsOnlyLoose(settled: seq<Activity>, loose: seq<Activity>, more: seq<Activity>)
    requires OnceEach(more) && forall activity | activity in settled :: activity !in more
    ensures OnceEach(settled + loose + more)
            <==> OnceEach(settled + loose) && !exists activity :: activity in loose && activity in more
  {
    OnceEachJoined(settled + loose, more);
  }

  lemma NextAdds(h: History, entries: seq<Activity>, before: nat, look: Look, max: nat)
    requires DistinctIds(entries) && HistoryInv(h, entries, before) && h.polling
    requires before <= look.end <= |entries| && look.start <= look.end
    ensures Presented(VisitOnce(h, Next(look), entries, max)) == Presented(h) + Shown(entries, h.covered, look, max)
  {
    PollIsShown(h.state, entries, h.covered, look, max);
    var more := PollWindow(h.state, entries[look.start..look.end], look.failAt, max).presented;
    assert h.settled + h.loose + more == h.settled + (h.loose + more);
  }

  lemma NextRepeatsExactly(h: History, entries: seq<Activity>, before: nat, look: Look, max: nat)
    requires DistinctIds(entries) && HistoryInv(h, entries, before) && h.polling
    requires before <= look.end <= |entries| && look.start <= look.end
    ensures OnceEach(Presented(VisitOnce(h, Next(look), entries, max)))
            <==> OnceEach(Presented(h)) && !ShowsLooseAgain(h, entries, look, max)
  {
    var more := Shown(entries, h.covered, look, max);
    NextAdds(h, entries, before, look, max);
    ShownIsNew(h, entries, before, look, max);
    RepeatsOnlyLoose(h.settled, h.loose, more);
  }

  lemma PollPartOfLog(more: seq<Activity>, entries: seq<Activity>, from: nat, to: nat)
    requires DistinctIds(entries) && from <= to <= |entries| && multiset(more) <= multiset(entries[from..to])
    ensures OnceEach(more)
  {
    LogIsOnceEach(entries[from..to]);
  }

  lemma {:induction false} RunRepeatsExactly(visits: seq<Visit>, entries: seq<Activity>, max: nat)
    requires DistinctIds(entries) && OnGrowingLog(visits, |entries|)
    ensures OnceEach(Presented(RunVisits(visits, entries, max))) <==> !SomePollShowsAgain(visits, entries, max)
    decreases |visits|
  {
    if visits != [] {
      var before, visit := visits[..|visits| - 1], visits[|visits| - 1];
      RunRepeatsExactly(before, entries, max);
      RunKeepsHistory(before, entries, EndOf(visit), max);
      var h := RunVisits(before, entries, max);
      if visit.Next? && h.polling {
        NextRepeatsExactly(h, entries, visit.look.end, visit.look, max);
      } else {
        assert Presented(VisitOnce(h, visit, entries, max)) == Presented(h);
      }
    }
  }

  /**
    Over any number of subscriptions to one growing log, no entry is presented twice exactly if no poll
    shows again what was presented, before a presenter failure, behind a cursor that has not moved since.
   */
  lemma PresentedTwiceExactly(visits: seq<Visit>, entries: seq<Activity>, max: nat)
    requires DistinctIds(entries) && OnGrowingLog(visits, |entries|)
    ensures multiset(Presented(RunVisits(visits, entries, max))) <= multiset(entries)
            <==> !SomePollShowsAgain(visits, entries, max)
  {
    var h := RunVisits(visits, entries, max);
    RunKeepsHistory(visits, entries, |entries|, max);
    PresentedWithin(h, entries, |entries|);
    assert entries[..|entries|] == entries;
    OnceEachMeansPartOfLog(Presented(h), entries);
    RunRepeatsExactly(visits, entries, max);
  }

  lemma {:induction false} NothingLooseIsShown(visits: seq<Visit>, entries: seq<Activity>, max: nat)
    requires OnGrowingLog(visits, |entries|) && RestartsOnWindows(visits, entries, max)
    ensures !SomePollShowsAgain(visits, entries, max)
    decreases |visits|
  {
    if visits != [] {
      NothingLooseIsShown(visits[..|visits| - 1], entries, max);
    }
  }

  /** So nothing is presented twice as long as the restart after such a failure sees a non-empty window. */
  lemma NothingIsPresentedTwice(visits: seq<Visit>, entries: seq<Activity>, max: nat)
    requires DistinctIds(entries) && OnGrowingLog(visits, |entries|) && RestartsOnWindows(visits, entries, max)
    ensures multiset(Presented(RunVisits(visits, entries, max))) <= multiset(entries)
  {
    NothingLooseIsShown(visits, entries, max);
    PresentedTwiceExactly(visits, entries, max);
  }
}
