/**
  Whether a target text can be assembled from fragments: a memoised search over the position,
  the fragments that remain and the number of parts so far, under a bound on explored states.
 */
module FragmentSearch {
  import opened Wrappers

  const MAX_EXPLORED := 65_536

  datatype SearchError = BoundExceeded

  // ---- The declarative reading ----

  function Concat(parts: seq<string>): string {
    if parts == [] then "" else parts[0] + Concat(parts[1..])
  }

  /** At least two non-empty listed values, none used more often than it is listed, spell the target. */
  ghost predicate IsAssembly(target: string, values: seq<string>, parts: seq<string>) {
    && |parts| >= 2
    && "" !in parts
    && multiset(parts) <= multiset(values)
    && Concat(parts) == target
  }

  ghost predicate IsAssembled(target: string, values: seq<string>) {
    exists parts :: IsAssembly(target, values, parts)
  }

  // ---- The search without memo and without bound ----

  predicate StartsAt(target: string, value: string, position: nat) {
    position + |value| <= |target| && target[position..position + |value|] == value
  }

  predicate IsSubstring(value: string, target: string) {
    exists i | 0 <= i <= |target| :: StartsAt(target, value, i)
  }

  predicate IsCandidate(value: string, target: string) {
    0 < |value| < |target| && IsSubstring(value, target)
  }

  predicate Distinct(candidates: seq<string>) {
    && "" !in candidates
    && forall i, j | 0 <= i < j < |candidates| :: candidates[i] != candidates[j]
  }

  function Capped(parts: nat): nat { if parts + 1 < 2 then parts + 1 else 2 }

  /** What the search answers at one state. */
  ghost predicate Assembles(target: string, candidates: seq<string>, position: nat, remaining: seq<nat>, parts: nat)
    requires position <= |target| && |remaining| == |candidates| && "" !in candidates
    decreases |target| - position
  {
    if position == |target| then parts >= 2
    else exists i | 0 <= i < |candidates| :: Continues(target, candidates, position, remaining, parts, i)
  }

  ghost predicate Continues(target: string, candidates: seq<string>, position: nat, remaining: seq<nat>, parts: nat,
      i: nat)
    requires position < |target| && |remaining| == |candidates| && "" !in candidates && i < |candidates|
    decreases |target| - position, 0
  {
    && remaining[i] > 0
    && StartsAt(target, candidates[i], position)
    && candidates[i] != ""
    && Assembles(target, candidates, position + |candidates[i]|, remaining[i := remaining[i] - 1], Capped(parts))
  }

  // ---- The search decides the declarative reading ----

  /** The parts are candidates, none used more often than it remains. */
  ghost predicate Uses(candidates: seq<string>, remaining: seq<nat>, parts: seq<string>)
    requires |remaining| == |candidates|
  {
    && (forall part | part in parts :: part in candidates)
    && (forall i | 0 <= i < |candidates| :: multiset(parts)[candidates[i]] <= remaining[i])
  }

  lemma {:induction false} SearchIsSound(target: string, candidates: seq<string>, position: nat, remaining: seq<nat>,
      parts: nat)
    returns (found: seq<string>)
    requires position <= |target| && |remaining| == |candidates| && Distinct(candidates)
    requires Assembles(target, candidates, position, remaining, parts) && parts <= 2
    ensures Uses(candidates, remaining, found) && Concat(found) == target[position..] && parts + |found| >= 2
    decreases |target| - position
  {
    if position == |target| {
      found := [];
    } else {
      var i :| 0 <= i < |candidates| && Continues(target, candidates, position, remaining, parts, i);
      var value := candidates[i];
      var next := remaining[i := remaining[i] - 1];
      var rest := SearchIsSound(target, candidates, position + |value|, next, Capped(parts));
      found := [value] + rest;
      assert target[position..] == value + target[position + |value|..];
      assert found[1..] == rest;
      assert multiset(found) == multiset{value} + multiset(rest);
      forall j | 0 <= j < |candidates| ensures multiset(found)[candidates[j]] <= remaining[j] {
        assert multiset(rest)[candidates[j]] <= next[j];
        if j != i { assert candidates[j] != value; }
      }
    }
  }

  lemma {:induction false} SearchIsComplete(target: string, candidates: seq<string>, position: nat,
      remaining: seq<nat>, parts: nat, rest: seq<string>)
    requires position <= |target| && |remaining| == |candidates| && Distinct(candidates)
    requires Uses(candidates, remaining, rest) && Concat(rest) == target[position..] && parts + |rest| >= 2
    ensures Assembles(target, candidates, position, remaining, parts)
    decreases |rest|
  {
    if rest == [] {
      assert |target[position..]| == 0;
    } else {
      var value, more := rest[0], rest[1..];
      assert value in candidates;
      var i :| 0 <= i < |candidates| && candidates[i] == value;
      var next := UseFirst(candidates, remaining, rest, i);
      AfterFirstPart(target, position, value, Concat(more));
      SearchIsComplete(target, candidates, position + |value|, next, Capped(parts), more);
      assert Continues(target, candidates, position, remaining, parts, i);
    }
  }

  lemma AfterFirstPart(target: string, position: nat, value: string, rest: string)
    requires position <= |target| && target[position..] == value + rest
    ensures StartsAt(target, value, position) && position + |value| <= |target| && target[position + |value|..] == rest
  {
    assert target[position..][|value|..] == rest;
    assert target[position..][..|value|] == value;
  }

  /** Using the first part leaves enough for the rest. */
  lemma UseFirst(candidates: seq<string>, remaining: seq<nat>, rest: seq<string>, i: nat) returns (next: seq<nat>)
    requires |remaining| == |candidates| && Distinct(candidates) && rest != []
    requires Uses(candidates, remaining, rest) && i < |candidates| && candidates[i] == rest[0]
    ensures remaining[i] > 0 && next == remaining[i := remaining[i] - 1]
    ensures Uses(candidates, next, rest[1..]) && rest[0] != ""
  {
    var value, more := rest[0], rest[1..];
    assert rest == [value] + more;
    assert multiset(rest) == multiset{value} + multiset(more);
    next := remaining[i := remaining[i] - 1];
    forall j | 0 <= j < |candidates| ensures multiset(more)[candidates[j]] <= next[j] {
      assert multiset(rest)[candidates[j]] <= remaining[j];
      if j != i { assert candidates[j] != value; }
    }
  }

  lemma {:induction false} PartsAreSubstrings(parts: seq<string>, i: nat)
    requires i < |parts|
    ensures IsSubstring(parts[i], Concat(parts))
    ensures |parts| >= 2 && "" !in parts ==> |parts[i]| < |Concat(parts)|
    decreases |parts|
  {
    var target, rest := Concat(parts), Concat(parts[1..]);
    if i == 0 {
      assert StartsAt(target, parts[0], 0);
      if |parts| >= 2 && "" !in parts {
        assert |rest| >= |parts[1]| > 0 by { assert rest == parts[1] + Concat(parts[2..]); assert parts[1] in parts; }
      }
    } else {
      PartsAreSubstrings(parts[1..], i - 1);
      var k :| 0 <= k <= |rest| && StartsAt(rest, parts[i], k);
      assert target[|parts[0]| + k..|parts[0]| + k + |parts[i]|] == rest[k..k + |parts[i]|];
      assert StartsAt(target, parts[i], |parts[0]| + k);
      if "" !in parts { assert parts[0] in parts; }
    }
  }

  /** The candidates of the values, each with the number of times it is listed. */
  ghost predicate Counts(target: string, values: seq<string>, candidates: seq<string>, remaining: seq<nat>) {
    && |remaining| == |candidates|
    && Distinct(candidates)
    && (forall value :: value in candidates <==> value in values && IsCandidate(value, target))
    && (forall i | 0 <= i < |candidates| :: remaining[i] == multiset(values)[candidates[i]])
  }

  /** Filtering out the values that are not proper substrings of the target changes no answer. */
  lemma SearchDecidesAssembly(target: string, values: seq<string>, candidates: seq<string>, remaining: seq<nat>)
    requires Counts(target, values, candidates, remaining)
    ensures Assembles(target, candidates, 0, remaining, 0) <==> IsAssembled(target, values)
  {
    if Assembles(target, candidates, 0, remaining, 0) {
      var parts := SearchIsSound(target, candidates, 0, remaining, 0);
      forall part ensures multiset(parts)[part] <= multiset(values)[part] {
        if part in parts { var i :| 0 <= i < |candidates| && candidates[i] == part; }
      }
      assert IsAssembly(target, values, parts);
    }
    if IsAssembled(target, values) {
      var parts :| IsAssembly(target, values, parts);
      forall part | part in parts ensures part in candidates {
        var i :| 0 <= i < |parts| && parts[i] == part;
        PartsAreSubstrings(parts, i);
        assert part in multiset(parts) && part in multiset(values);
      }
      forall i | 0 <= i < |candidates| ensures multiset(parts)[candidates[i]] <= remaining[i] { }
      assert target[0..] == target;
      SearchIsComplete(target, candidates, 0, remaining, 0, parts);
    }
  }

  // ---- The search as it runs ----

  type State = (nat, seq<nat>, nat)

  /** The parts used so far lead to the state: they spell the target up to its position, and the rest remains. */
  ghost predicate ReachedBy(target: string, candidates: seq<string>, counts: seq<nat>, state: State,
      used: seq<string>) {
    && state.0 <= |target| && |state.1| == |candidates| == |counts|
    && Concat(used) == target[..state.0]
    && (forall part | part in used :: part in candidates)
    && (forall i | 0 <= i < |counts| :: multiset(used)[candidates[i]] + state.1[i] == counts[i])
    && state.2 == if |used| < 2 then |used| else 2
  }

  /** The states that choosing candidates one after the other can lead to. */
  ghost predicate Reachable(target: string, candidates: seq<string>, counts: seq<nat>, state: State) {
    exists used :: ReachedBy(target, candidates, counts, state, used)
  }

  lemma {:induction false} ConcatOfAppend(parts: seq<string>, part: string)
    ensures Concat(parts + [part]) == Concat(parts) + part
  {
    if parts == [] {
      assert [part][1..] == [];
    } else {
      ConcatOfAppend(parts[1..], part);
      assert (parts + [part])[1..] == parts[1..] + [part];
    }
  }

  lemma StartIsReachable(target: string, candidates: seq<string>, counts: seq<nat>)
    requires |counts| == |candidates|
    ensures Reachable(target, candidates, counts, (0, counts, 0))
  {
    assert ReachedBy(target, candidates, counts, (0, counts, 0), []);
  }

  /** Choosing a candidate that remains and fits leads from one reachable state to another. */
  lemma NextIsReachable(target: string, candidates: seq<string>, counts: seq<nat>, state: State, i: nat)
    requires Distinct(candidates) && Reachable(target, candidates, counts, state)
    requires i < |candidates| && state.1[i] > 0 && StartsAt(target, candidates[i], state.0)
    ensures Reachable(target, candidates, counts,
                      (state.0 + |candidates[i]|, state.1[i := state.1[i] - 1], Capped(state.2)))
  {
    var used :| ReachedBy(target, candidates, counts, state, used);
    var value, longer := candidates[i], used + [candidates[i]];
    var next := (state.0 + |value|, state.1[i := state.1[i] - 1], Capped(state.2));
    ConcatOfAppend(used, value);
    assert target[..next.0] == target[..state.0] + value;
    forall j | 0 <= j < |counts| ensures multiset(longer)[candidates[j]] + next.1[j] == counts[j] {
      if j != i { assert candidates[j] != value; }
    }
    assert ReachedBy(target, candidates, counts, next, longer);
  }

  class Search {
    const target: string
    const candidates: seq<string>
    const counts: seq<nat>
    var cache: map<State, bool>
    var explored: nat
    ghost var visited: set<State>   // the states that were explored, or are being explored

    constructor (target: string, candidates: seq<string>, counts: seq<nat>)
      requires Distinct(candidates) && |counts| == |candidates|
      ensures this.target == target && this.candidates == candidates && this.counts == counts
      ensures Valid() && visited == {} && cache == map[]
    {
      this.target, this.candidates, this.counts := target, candidates, counts;
      cache, explored, visited := map[], 0, {};
    }

    /** Every memoised answer is the answer of the plain search, and each state is counted once. */
    ghost predicate Valid()
      reads this
    {
      && Distinct(candidates) && |counts| == |candidates|
      && explored == |visited| <= MAX_EXPLORED
      && cache.Keys <= visited && Visited()
      && forall state | state in cache ::
           |state.1| == |candidates| && state.0 <= |target|
           && cache[state] == Assembles(target, candidates, state.0, state.1, state.2)
    }

    ghost predicate Visited()
      reads this
    {
      forall state | state in visited :: Reachable(target, candidates, counts, state)
    }

    /** The states that are still being explored. */
    ghost function Open(): set<State>
      reads this
    {
      visited - cache.Keys
    }

    /** A state that is not memoised is counted as explored, which fails beyond the bound. */
    method Enter(state: State) returns (within: bool)
      requires Valid() && Reachable(target, candidates, counts, state) && state !in visited
      modifies this`explored, this`visited
      ensures Visited() && explored == |visited| == old(explored) + 1
      ensures if within then Valid() && Open() == old(Open()) + {state} else explored == MAX_EXPLORED + 1
    {
      explored := explored + 1;
      visited := visited + {state};
      within := explored <= MAX_EXPLORED;
    }

    method Memoise(state: State, answer: bool)
      requires Valid() && state in Open()
      requires state.0 <= |target| && |state.1| == |candidates|
      requires answer == Assembles(target, candidates, state.0, state.1, state.2)
      modifies this`cache
      ensures Valid() && Open() == old(Open()) - {state}
    {
      cache := cache[state := answer];
    }

    /** One call of the memoised search. */
    method Assemble(position: nat, remaining: seq<nat>, parts: nat) returns (result: Result<bool, SearchError>)
      requires Valid() && Reachable(target, candidates, counts, (position, remaining, parts))
      requires forall state | state in Open() :: state.0 < position
      modifies this
      ensures result.Ok? ==> Valid() && result.value == Assembles(target, candidates, position, remaining, parts)
      ensures result.Ok? ==> Open() == old(Open())
      ensures result.Err? ==> Visited() && |visited| == MAX_EXPLORED + 1
      decreases |target| - position, 1
    {
      var state := (position, remaining, parts);
      if state in cache {
        return Ok(cache[state]);
      }
      assert state !in Open();
      var within := Enter(state);
      if !within {
        return Err(BoundExceeded);
      }
      result := Explore(position, remaining, parts);
      if result.Ok? {
        Memoise(state, result.value);
      }
    }

    /** The body of an explored state: tries each remaining candidate in turn. */
    method Explore(position: nat, remaining: seq<nat>, parts: nat) returns (result: Result<bool, SearchError>)
      requires Valid() && Reachable(target, candidates, counts, (position, remaining, parts))
      requires forall state | state in Open() :: state.0 <= position
      modifies this
      ensures result.Ok? ==> Valid() && result.value == Assembles(target, candidates, position, remaining, parts)
      ensures result.Ok? ==> Open() == old(Open())
      ensures result.Err? ==> Visited() && |visited| == MAX_EXPLORED + 1
      decreases |target| - position, 0
    {
      if position == |target| {
        return Ok(parts >= 2);
      }
      for i := 0 to |candidates|
        invariant Valid() && Open() == old(Open())
        invariant forall j | 0 <= j < i :: !Continues(target, candidates, position, remaining, parts, j)
      {
        if remaining[i] > 0 && StartsAt(target, candidates[i], position) {
          ContinuesAsAssembles(target, candidates, position, remaining, parts, i);
          NextIsReachable(target, candidates, counts, (position, remaining, parts), i);
          var found := Assemble(position + |candidates[i]|, remaining[i := remaining[i] - 1], Capped(parts));
          if found.Err? || found.value {
            return found;
          }
        }
      }
      result := Ok(false);
    }
  }

  lemma ContinuesAsAssembles(
    target: string, candidates: seq<string>, position: nat, remaining: seq<nat>, parts: nat, i: nat)
    requires position < |target| && |remaining| == |candidates| && "" !in candidates && i < |candidates|
    requires remaining[i] > 0 && StartsAt(target, candidates[i], position)
    ensures candidates[i] != ""
    ensures Continues(target, candidates, position, remaining, parts, i)
            <==> Assembles(
                   target, candidates, position + |candidates[i]|, remaining[i := remaining[i] - 1], Capped(parts))
  {
    assert candidates[i] in candidates;
  }

  /** The distinct candidates of the values in the order of their first occurrence, with their counts. */
  method CountCandidates(target: string, values: seq<string>) returns (candidates: seq<string>, remaining: seq<nat>)
    ensures Counts(target, values, candidates, remaining)
  {
    candidates, remaining := [], [];
    for k := 0 to |values|
      invariant Counts(target, values[..k], candidates, remaining)
    {
      var value := values[k];
      assert values[..k + 1] == values[..k] + [value];
      if IsCandidate(value, target) {
        var i := 0;
        while i < |candidates| && candidates[i] != value
          invariant 0 <= i <= |candidates| && value !in candidates[..i]
        {
          i := i + 1;
        }
        if i < |candidates| {
          remaining := remaining[i := remaining[i] + 1];
        } else {
          assert multiset(values[..k])[value] == 0 by { assert value !in values[..k]; }
          candidates, remaining := candidates + [value], remaining + [1];
        }
      }
    }
    assert values[..|values|] == values;
  }

  /** More distinct states than the bound can be reached in the search of the target. */
  ghost predicate ExceedsBound(target: string, values: seq<string>) {
    exists candidates, counts, states: set<State> ::
      && Counts(target, values, candidates, counts)
      && |states| > MAX_EXPLORED
      && forall state | state in states :: Reachable(target, candidates, counts, state)
  }

  /** The answer is exactly the declarative reading, unless more distinct states than the bound can be reached. */
  method AssembledFromFragments(target: string, values: seq<string>) returns (result: Result<bool, SearchError>)
    ensures result.Ok? ==> result.value == IsAssembled(target, values)
    ensures result.Err? ==> ExceedsBound(target, values)
  {
    var candidates, remaining := CountCandidates(target, values);
    var search := new Search(target, candidates, remaining);
    StartIsReachable(target, candidates, remaining);
    result := search.Assemble(0, remaining, 0);
    SearchDecidesAssembly(target, values, candidates, remaining);
    if result.Err? {
      assert Counts(target, values, candidates, remaining) && |search.visited| > MAX_EXPLORED;
    }
  }

  // ---- Empty values ----

  /** The literal reading, in which an empty listed value may count as a part. */
  ghost predicate IsLooselyAssembled(target: string, values: seq<string>) {
    exists parts :: |parts| >= 2 && multiset(parts) <= multiset(values) && Concat(parts) == target
  }

  /** Here the literal reading and the search disagree: the empty value is never used. */
  lemma EmptyPartIsNotCounted()
    ensures IsLooselyAssembled("a", ["a", ""]) && !IsAssembled("a", ["a", ""])
  {
    assert ["a", ""][1..] == [""] && [""][1..] == [];
    assert Concat(["a", ""]) == "a";
    forall parts | IsAssembly("a", ["a", ""], parts) ensures false {
      PartsAreSubstrings(parts, 0);
    }
  }

  /** The non-empty parts. */
  function Parts(parts: seq<string>): seq<string> {
    if parts == [] then [] else (if parts[0] == "" then [] else [parts[0]]) + Parts(parts[1..])
  }

  lemma {:induction false} DroppingEmptyParts(parts: seq<string>)
    ensures Concat(Parts(parts)) == Concat(parts) && "" !in Parts(parts)
    ensures |parts| == |Parts(parts)| + multiset(parts)[""]
    decreases |parts|
  {
    if parts != [] {
      var more := parts[1..];
      DroppingEmptyParts(more);
      assert parts == [parts[0]] + more;
      assert multiset(parts) == multiset{parts[0]} + multiset(more);
      if parts[0] == "" { assert Parts(parts) == Parts(more); }
      else { assert Parts(parts)[1..] == Parts(more); }
    }
  }

  lemma {:induction false} DroppingKeepsTheRest(parts: seq<string>)
    ensures multiset(Parts(parts)) <= multiset(parts)
    decreases |parts|
  {
    if parts != [] {
      var more := parts[1..];
      DroppingKeepsTheRest(more);
      assert parts == [parts[0]] + more;
      assert multiset(parts) == multiset{parts[0]} + multiset(more);
      if parts[0] != "" { assert multiset(Parts(parts)) == multiset{parts[0]} + multiset(Parts(more)); }
    }
  }

  ghost predicate AssembledWithEmpty(target: string, values: seq<string>) {
    || (target != "" && target in values && "" in values)
    || (target == "" && multiset(values)[""] >= 2)
  }

  /**
    The literal reading adds exactly what empty listed values can complete: a listed target with one, or an empty
    target with two.
   */
  lemma LooseReadingIsExact(target: string, values: seq<string>)
    ensures IsLooselyAssembled(target, values) <==> IsAssembled(target, values) || AssembledWithEmpty(target, values)
  {
    if IsLooselyAssembled(target, values) {
      var parts :| |parts| >= 2 && multiset(parts) <= multiset(values) && Concat(parts) == target;
      LooseIsStrictOrEmpty(target, values, parts);
    }
    if AssembledWithEmpty(target, values) {
      EmptyPartsAssemble(target, values);
    }
  }

  /** The readings differ exactly where an empty value completes the target and no two non-empty values assemble it. */
  lemma ReadingsDifferExactly(target: string, values: seq<string>)
    ensures (IsLooselyAssembled(target, values) <==> IsAssembled(target, values))
            <==> !(AssembledWithEmpty(target, values) && !IsAssembled(target, values))
  {
    LooseReadingIsExact(target, values);
  }

  /** Where no empty value completes the target, which a caller can see from the list, the readings agree. */
  lemma ReadingsAgree(target: string, values: seq<string>)
    requires !AssembledWithEmpty(target, values)
    ensures IsLooselyAssembled(target, values) <==> IsAssembled(target, values)
  {
    LooseReadingIsExact(target, values);
  }

  /** An empty value may complete a target that two non-empty values assemble too; then the readings agree. */
  lemma EmptyPartMayNotMatter()
    ensures AssembledWithEmpty("ab", ["ab", "", "a", "b"])
    ensures IsLooselyAssembled("ab", ["ab", "", "a", "b"]) && IsAssembled("ab", ["ab", "", "a", "b"])
  {
    var parts := ["a", "b"];
    assert parts[1..] == ["b"] && ["b"][1..] == [];
    assert Concat(parts) == "ab";
    assert multiset(["ab", "", "a", "b"]) == multiset{"ab", "", "a", "b"};
    assert IsAssembly("ab", ["ab", "", "a", "b"], parts);
    LooseReadingIsExact("ab", ["ab", "", "a", "b"]);
  }

  lemma LooseIsStrictOrEmpty(target: string, values: seq<string>, parts: seq<string>)
    requires |parts| >= 2 && multiset(parts) <= multiset(values) && Concat(parts) == target
    ensures IsAssembled(target, values) || AssembledWithEmpty(target, values)
  {
    var kept := Parts(parts);
    DroppingEmptyParts(parts);
    DroppingKeepsTheRest(parts);
    if |kept| >= 2 {
      assert IsAssembly(target, values, kept);
    } else {
      FewPartsKept(target, values, parts, kept);
    }
  }

  lemma FewPartsKept(target: string, values: seq<string>, parts: seq<string>, kept: seq<string>)
    requires |parts| >= 2 && multiset(parts) <= multiset(values) && Concat(kept) == target && "" !in kept
    requires |kept| <= 1 && multiset(kept) <= multiset(parts) && multiset(parts)[""] == |parts| - |kept|
    ensures AssembledWithEmpty(target, values)
  {
    if |kept| == 1 {
      assert Concat(kept) == kept[0] + Concat([]) == kept[0] by { assert kept[1..] == []; }
      assert target in kept && target in multiset(kept);
      assert target in multiset(parts) && "" in multiset(parts);
      assert target in multiset(values) && "" in multiset(values);
    }
  }

  lemma EmptyPartsAssemble(target: string, values: seq<string>)
    requires AssembledWithEmpty(target, values)
    ensures IsLooselyAssembled(target, values)
  {
    var parts := [target, ""];
    assert parts[1..] == [""] && [""][1..] == [];
    assert Concat(parts) == target;
    assert multiset(parts) == multiset{target, ""};
    assert multiset(parts) <= multiset(values);
  }
}
