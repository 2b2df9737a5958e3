/**
  Keyed serialization with entries that are created for the first user of a key and dropped
  with the last.  A task that waits for, or is inside, `hold(key)` is a suspended frame with
  its local variables; the registry is checked against what the frames alone say.
 */
module KeyedLocks {
  import opened Wrappers

  type Task = nat

  datatype Key = Key(name: string)

  datatype Role = Role(key: Key, inside: bool)

  /** One atomic segment between two suspension points. */
  datatype Action =
    | Enter(task: Task, key: Key)   // up to the wait for the lock
    | Acquire(task: Task)           // the lock is handed to a waiting task
    | Leave(task: Task)             // the `finally`: after the body, or after a cancellation

  // ---- Specification: roles only, no entries, no locks, no counters ----

  function ActiveKeys(roles: map<Task, Role>): set<Key> {
    set task | task in roles :: roles[task].key
  }

  predicate Admits(roles: map<Task, Role>, key: Key, capacity: Option<nat>) {
    key in ActiveKeys(roles) || capacity.None? || |ActiveKeys(roles)| < capacity.value
  }

  predicate IsFree(roles: map<Task, Role>, key: Key) {
    forall task | task in roles :: roles[task].key == key ==> !roles[task].inside
  }

  function SpecStep(roles: map<Task, Role>, action: Action, capacity: Option<nat>): map<Task, Role> {
    match action
    case Enter(task, key) =>
      if task !in roles && Admits(roles, key, capacity) then roles[task := Role(key, false)] else roles
    case Acquire(task) =>
      if task in roles && !roles[task].inside && IsFree(roles, roles[task].key)
      then roles[task := Role(roles[task].key, true)] else roles
    case Leave(task) => roles - {task}
  }

  function SpecRun(roles: map<Task, Role>, actions: seq<Action>, capacity: Option<nat>): map<Task, Role> {
    if actions == [] then roles
    else SpecStep(SpecRun(roles, actions[..|actions| - 1], capacity), actions[|actions| - 1], capacity)
  }

  ghost predicate MutuallyExclusive(roles: map<Task, Role>) {
    forall a, b | a in roles && b in roles && roles[a].inside && roles[b].inside && roles[a].key == roles[b].key ::
      a == b
  }

  ghost predicate WithinCapacity(roles: map<Task, Role>, capacity: Option<nat>) {
    capacity.Some? ==> |ActiveKeys(roles)| <= capacity.value
  }

  lemma SpecStepKeeps(roles: map<Task, Role>, action: Action, capacity: Option<nat>)
    requires MutuallyExclusive(roles) && WithinCapacity(roles, capacity)
    ensures MutuallyExclusive(SpecStep(roles, action, capacity))
    ensures WithinCapacity(SpecStep(roles, action, capacity), capacity)
  {
    match action
    case Enter(task, key) =>
      if task !in roles && Admits(roles, key, capacity) { ActiveKeysGrow(roles, task, key); }
    case Acquire(task) =>
      assert ActiveKeys(SpecStep(roles, action, capacity)) <= ActiveKeys(roles);
      SubsetIsSmaller(ActiveKeys(SpecStep(roles, action, capacity)), ActiveKeys(roles));
    case Leave(task) =>
      assert ActiveKeys(roles - {task}) <= ActiveKeys(roles);
      SubsetIsSmaller(ActiveKeys(roles - {task}), ActiveKeys(roles));
  }

  lemma ActiveKeysGrow(roles: map<Task, Role>, task: Task, key: Key)
    requires task !in roles
    ensures ActiveKeys(roles[task := Role(key, false)]) == ActiveKeys(roles) + {key}
  {
    var after := roles[task := Role(key, false)];
    forall t | t in roles ensures roles[t].key in ActiveKeys(after) { assert after[t].key == roles[t].key; }
    assert after[task].key == key;
  }

  lemma SubsetIsSmaller<T>(a: set<T>, b: set<T>)
    requires a <= b
    ensures |a| <= |b|
  {
    assert b == a + (b - a);
  }

  /** Over every interleaving, at most one task is inside each key and the active keys stay within the capacity. */
  lemma {:induction false} EveryScheduleIsSafe(actions: seq<Action>, capacity: Option<nat>)
    ensures MutuallyExclusive(SpecRun(map[], actions, capacity))
    ensures WithinCapacity(SpecRun(map[], actions, capacity), capacity)
    decreases |actions|
  {
    if actions == [] {
      assert ActiveKeys(map[]) == {};
    } else {
      EveryScheduleIsSafe(actions[..|actions| - 1], capacity);
      SpecStepKeeps(SpecRun(map[], actions[..|actions| - 1], capacity), actions[|actions| - 1], capacity);
    }
  }

  // ---- One entry that agrees with the roles ----

  /** The fields of one lock entry: its user count and who holds its lock. */
  datatype EntryState = EntryState(users: nat, holder: Option<Task>)

  function UsersOf(roles: map<Task, Role>, key: Key): set<Task> {
    set task | task in roles && roles[task].key == key
  }

  /** An entry counts its users, has at least one, and its lock is held exactly by whichever task is inside. */
  ghost predicate EntryMatches(roles: map<Task, Role>, key: Key, state: EntryState) {
    && state.users == |UsersOf(roles, key)| > 0
    && (forall task | task in UsersOf(roles, key) :: roles[task].inside <==> state.holder == Some(task))
    && (state.holder.Some? ==> state.holder.value in UsersOf(roles, key))
  }

  lemma EnteringMatches(roles: map<Task, Role>, task: Task, key: Key, k: Key, state: EntryState)
    requires task !in roles
    ensures k != key && EntryMatches(roles, k, state) ==> EntryMatches(roles[task := Role(key, false)], k, state)
    ensures k == key && EntryMatches(roles, k, state) ==>
              EntryMatches(roles[task := Role(key, false)], k, state.(users := state.users + 1))
    ensures k == key && UsersOf(roles, k) == {} ==>
        EntryMatches(roles[task := Role(key, false)], k, EntryState(1, None))
  {
    assert UsersOf(roles[task := Role(key, false)], k)
        == if k == key then UsersOf(roles, k) + {task} else UsersOf(roles, k);
  }

  lemma AcquiringMatches(roles: map<Task, Role>, task: Task, k: Key, state: EntryState)
    requires task in roles && EntryMatches(roles, k, state)
    ensures k != roles[task].key ==> EntryMatches(roles[task := Role(roles[task].key, true)], k, state)
    ensures k == roles[task].key && state.holder.None? ==>
              EntryMatches(roles[task := Role(roles[task].key, true)], k, state.(holder := Some(task)))
  {
    assert UsersOf(roles[task := Role(roles[task].key, true)], k) == UsersOf(roles, k);
  }

  /** What a leaving task does to its entry: release the lock if it was inside, and count one user less. */
  function AfterLeaving(state: EntryState, inside: bool): EntryState
    requires state.users > 0
  {
    EntryState(state.users - 1, if inside then None else state.holder)
  }

  lemma LeavingMatches(roles: map<Task, Role>, task: Task, k: Key, state: EntryState)
    requires task in roles && EntryMatches(roles, k, state)
    ensures k != roles[task].key ==> EntryMatches(roles - {task}, k, state)
    ensures k == roles[task].key && state.users > 1 ==>
        EntryMatches(roles - {task}, k, AfterLeaving(state, roles[task].inside))
    ensures k == roles[task].key && state.users == 1 ==> UsersOf(roles - {task}, k) == {}
  {
    assert UsersOf(roles - {task}, k) == UsersOf(roles, k) - {task};
  }

  // ---- A registry that agrees with the roles ----

  type EntryId = nat   // the identity of an entry object

  /** The registry's objects; `frames` holds the entry that each suspended `hold` refers to. */
  datatype Tables = Tables(entries: map<Key, EntryId>, objects: map<EntryId, EntryState>, nextId: EntryId,
                           roles: map<Task, Role>, frames: map<Task, EntryId>)

  /**
    Entries are not shared between keys, and each frame still refers to the entry that the registry has for its key.
   */
  ghost predicate Linked(t: Tables) {
    && (forall key | key in t.entries :: t.entries[key] in t.objects && t.entries[key] < t.nextId)
    && (forall a, b | a in t.entries && b in t.entries && a != b :: t.entries[a] != t.entries[b])
    && t.roles.Keys == t.frames.Keys
    && (forall task | task in t.roles ::
          t.roles[task].key in t.entries && t.frames[task] == t.entries[t.roles[task].key])
  }

  ghost predicate Agrees(t: Tables) {
    forall key | key in t.entries ::
      t.entries[key] in t.objects && EntryMatches(t.roles, key, t.objects[t.entries[key]])
  }

  function Joined(t: Tables, task: Task, key: Key): Tables
    requires key in t.entries && t.entries[key] in t.objects
  {
    var entry := t.entries[key];
    t.(objects := t.objects[entry := t.objects[entry].(users := t.objects[entry].users + 1)],
       roles := t.roles[task := Role(key, false)], frames := t.frames[task := entry])
  }

  function Created(t: Tables, task: Task, key: Key): Tables {
    t.(entries := t.entries[key := t.nextId], objects := t.objects[t.nextId := EntryState(1, None)],
        nextId := t.nextId + 1,
       roles := t.roles[task := Role(key, false)], frames := t.frames[task := t.nextId])
  }

  function Acquired(t: Tables, task: Task): Tables
    requires task in t.roles && task in t.frames && t.frames[task] in t.objects
  {
    var entry := t.frames[task];
    t.(objects := t.objects[entry := t.objects[entry].(holder := Some(task))],
       roles := t.roles[task := Role(t.roles[task].key, true)])
  }

  function Left(t: Tables, task: Task): Tables
    requires task in t.roles && task in t.frames && t.frames[task] in t.objects && t.objects[t.frames[task]].users > 0
  {
    var key, entry := t.roles[task].key, t.frames[task];
    var state := AfterLeaving(t.objects[entry], t.roles[task].inside);
    t.(objects := t.objects[entry := state], roles := t.roles - {task}, frames := t.frames - {task},
       entries := if state.users == 0 && key in t.entries && t.entries[key] == entry
           then t.entries - {key} else t.entries)
  }

  lemma JoiningKeeps(t: Tables, task: Task, key: Key)
    requires Linked(t) && Agrees(t) && task !in t.roles && key in t.entries
    ensures Linked(Joined(t, task, key)) && Agrees(Joined(t, task, key))
  {
    var after := Joined(t, task, key);
    forall k | k in after.entries ensures EntryMatches(after.roles, k, after.objects[after.entries[k]]) {
      EnteringMatches(t.roles, task, key, k, t.objects[t.entries[k]]);
    }
  }

  lemma CreatingLinks(t: Tables, task: Task, key: Key)
    requires Linked(t) && task !in t.roles && key !in t.entries
    ensures Linked(Created(t, task, key))
  {
  }

  lemma CreatingAgrees(t: Tables, task: Task, key: Key)
    requires Linked(t) && Agrees(t) && task !in t.roles && key !in t.entries
    ensures Agrees(Created(t, task, key))
  {
    var after := Created(t, task, key);
    forall k | k in after.entries ensures EntryMatches(after.roles, k, after.objects[after.entries[k]]) {
      if k == key {
        assert UsersOf(t.roles, k) == {};
        EnteringMatches(t.roles, task, key, k, EntryState(0, None));
      } else {
        EnteringMatches(t.roles, task, key, k, t.objects[t.entries[k]]);
      }
    }
  }

  lemma AcquiringLinks(t: Tables, task: Task)
    requires Linked(t) && task in t.roles
    ensures Linked(Acquired(t, task))
  {
  }

  lemma AcquiringAgrees(t: Tables, task: Task)
    requires Linked(t) && Agrees(t) && task in t.roles && t.objects[t.frames[task]].holder.None?
    ensures Agrees(Acquired(t, task))
  {
    var after := Acquired(t, task);
    forall k | k in after.entries ensures EntryMatches(after.roles, k, after.objects[after.entries[k]]) {
      AcquiringMatches(t.roles, task, k, t.objects[t.entries[k]]);
    }
  }

  lemma HasUsers(t: Tables, task: Task)
    requires Linked(t) && Agrees(t) && task in t.roles
    ensures task in t.frames && t.frames[task] in t.objects && t.objects[t.frames[task]].users > 0
  {
    assert EntryMatches(t.roles, t.roles[task].key, t.objects[t.frames[task]]);
  }

  lemma LeavingAgrees(t: Tables, task: Task)
    requires Linked(t) && Agrees(t) && task in t.roles && t.objects[t.frames[task]].users > 0
    ensures Agrees(Left(t, task))
  {
    var after := Left(t, task);
    forall k | k in after.entries ensures EntryMatches(after.roles, k, after.objects[after.entries[k]]) {
      LeavingMatches(t.roles, task, k, t.objects[t.entries[k]]);
    }
  }

  /** When the last user leaves, no other frame refers to the dropped entry. */
  lemma LeavingLinks(t: Tables, task: Task)
    requires Linked(t) && Agrees(t) && task in t.roles && t.objects[t.frames[task]].users > 0
    ensures Linked(Left(t, task))
  {
    var key := t.roles[task].key;
    LeavingMatches(t.roles, task, key, t.objects[t.frames[task]]);
    var after := Left(t, task);
    forall other | other in after.roles ensures after.roles[other].key in after.entries {
      if after.roles[other].key == key { assert other in UsersOf(t.roles - {task}, key); }
    }
  }

  /** Agreement makes the entries follow the roles. */
  lemma AgreementFollowsRoles(t: Tables)
    requires Linked(t) && Agrees(t)
    ensures t.entries.Keys == ActiveKeys(t.roles)
    ensures MutuallyExclusive(t.roles)
    ensures forall key | key in t.entries :: t.objects[t.entries[key]].holder.None? <==> IsFree(t.roles, key)
  {
    forall key | key in t.entries
      ensures key in ActiveKeys(t.roles) && (t.objects[t.entries[key]].holder.None? <==> IsFree(t.roles, key))
    {
      assert EntryMatches(t.roles, key, t.objects[t.entries[key]]);
      var task :| task in UsersOf(t.roles, key);
      if t.objects[t.entries[key]].holder.Some? { assert t.roles[t.objects[t.entries[key]].holder.value].inside; }
    }
    forall task | task in t.roles
      ensures t.roles[task].inside <==> t.objects[t.entries[t.roles[task].key]].holder == Some(task)
    {
      assert EntryMatches(t.roles, t.roles[task].key, t.objects[t.entries[t.roles[task].key]]);
      assert task in UsersOf(t.roles, t.roles[task].key);
    }
  }

  lemma AdmitsIffRoom(t: Tables, key: Key, capacity: Option<nat>)
    requires Linked(t) && Agrees(t)
    ensures Admits(t.roles, key, capacity) <==> key in t.entries || capacity.None? || |t.entries| < capacity.value
    ensures |t.entries| == |ActiveKeys(t.roles)|
  {
    AgreementFollowsRoles(t);
    assert |t.entries.Keys| == |t.entries|;
  }

  lemma FreeIffNotHeld(t: Tables, task: Task)
    requires Linked(t) && Agrees(t) && task in t.roles
    ensures t.objects[t.frames[task]].holder.None? <==> IsFree(t.roles, t.roles[task].key)
  {
    AgreementFollowsRoles(t);
  }

  // ---- Runs of the registry itself: what guards its steps is the state of its entries ----

  ghost function TableStep(t: Tables, action: Action, capacity: Option<nat>): Tables
    requires Linked(t) && Agrees(t)
  {
    match action
    case Enter(task, key) =>
      if task in t.roles then t
      else if key in t.entries then Joined(t, task, key)
      else if capacity.Some? && |t.entries| >= capacity.value then t
      else Created(t, task, key)
    case Acquire(task) =>
      if task in t.roles && !t.roles[task].inside && t.objects[t.frames[task]].holder.None?
          then Acquired(t, task) else t
    case Leave(task) =>
      if task !in t.roles then t
      else
        HasUsers(t, task);
        Left(t, task)
  }

  ghost predicate Follows(after: Tables, roles: map<Task, Role>) {
    Linked(after) && Agrees(after) && after.roles == roles
  }

  lemma EnterFollows(t: Tables, task: Task, key: Key, capacity: Option<nat>)
    requires Linked(t) && Agrees(t) && task !in t.roles
    ensures Follows(TableStep(t, Enter(task, key), capacity), SpecStep(t.roles, Enter(task, key), capacity))
  {
    AdmitsIffRoom(t, key, capacity);
    if key in t.entries {
      JoiningKeeps(t, task, key);
      assert TableStep(t, Enter(task, key), capacity) == Joined(t, task, key);
    } else if Admits(t.roles, key, capacity) {
      CreatingLinks(t, task, key);
      CreatingAgrees(t, task, key);
      assert TableStep(t, Enter(task, key), capacity) == Created(t, task, key);
    }
  }

  lemma AcquiredFollows(t: Tables, task: Task)
    requires Linked(t) && Agrees(t) && task in t.roles && t.objects[t.frames[task]].holder.None?
    ensures Follows(Acquired(t, task), t.roles[task := Role(t.roles[task].key, true)])
  {
    AcquiringLinks(t, task);
    AcquiringAgrees(t, task);
  }

  lemma AcquireFollows(t: Tables, task: Task, capacity: Option<nat>)
    requires Linked(t) && Agrees(t) && task in t.roles
    ensures Follows(TableStep(t, Acquire(task), capacity), SpecStep(t.roles, Acquire(task), capacity))
  {
    var free := t.objects[t.frames[task]].holder.None?;
    assert free <==> IsFree(t.roles, t.roles[task].key) by { FreeIffNotHeld(t, task); }
    if free && !t.roles[task].inside {
      AcquiredFollows(t, task);
      assert TableStep(t, Acquire(task), capacity) == Acquired(t, task);
    } else {
      assert TableStep(t, Acquire(task), capacity) == t;
    }
  }

  lemma LeaveFollows(t: Tables, task: Task, capacity: Option<nat>)
    requires Linked(t) && Agrees(t) && task in t.roles
    ensures Follows(TableStep(t, Leave(task), capacity), SpecStep(t.roles, Leave(task), capacity))
  {
    HasUsers(t, task);
    LeavingLinks(t, task);
    LeavingAgrees(t, task);
    assert TableStep(t, Leave(task), capacity) == Left(t, task);
  }

  lemma TableStepKeeps(t: Tables, action: Action, capacity: Option<nat>)
    requires Linked(t) && Agrees(t)
    ensures Follows(TableStep(t, action, capacity), SpecStep(t.roles, action, capacity))
  {
    if action.task in t.roles {
      match action
      case Enter(_, _) => assert TableStep(t, action, capacity) == t;
      case Acquire(task) => AcquireFollows(t, task, capacity);
      case Leave(task) => LeaveFollows(t, task, capacity);
    } else if action.Enter? {
      EnterFollows(t, action.task, action.key, capacity);
    } else {
      assert TableStep(t, action, capacity) == t;
      assert t.roles - {action.task} == t.roles;
    }
  }

  ghost function TableRun(actions: seq<Action>, capacity: Option<nat>): (t: Tables)
    ensures Linked(t) && Agrees(t) && t.roles == SpecRun(map[], actions, capacity)
    decreases |actions|
  {
    if actions == [] then Tables(map[], map[], 0, map[], map[])
    else
      var before := TableRun(actions[..|actions| - 1], capacity);
      TableStepKeeps(before, actions[|actions| - 1], capacity);
      TableStep(before, actions[|actions| - 1], capacity)
  }

  /**
    Over every interleaving of the registry's own steps: at most one task is inside each key, an entry
    exists exactly while its key has a user and its lock is free exactly while no task is inside, the
    entries stay within the capacity, and none is left once all tasks have left.
   */
  lemma EveryRegistryRunIsSafe(actions: seq<Action>, capacity: Option<nat>)
    ensures var t := TableRun(actions, capacity);
            && MutuallyExclusive(t.roles)
            && t.entries.Keys == ActiveKeys(t.roles)
            && (forall key | key in t.entries :: t.objects[t.entries[key]].holder.None? <==> IsFree(t.roles, key))
            && (capacity.Some? ==> |t.entries| <= capacity.value)
            && (t.roles == map[] ==> t.entries == map[])
  {
    var t := TableRun(actions, capacity);
    AgreementFollowsRoles(t);
    EveryScheduleIsSafe(actions, capacity);
    assert |t.entries.Keys| == |t.entries|;
    if t.roles == map[] {
      assert ActiveKeys(t.roles) == {} && t.entries.Keys == {};
    }
  }

  // ---- The registry as it runs ----

  class KeyedLockRegistry {
    const maxActiveKeys: Option<nat>
    var entries: map<Key, EntryId>
    var objects: map<EntryId, EntryState>   // the entry objects, by identity
    var nextId: EntryId
    // the local variables of each suspended `hold`: its key and whether it acquired the lock, and its entry
    var roles: map<Task, Role>
    var frames: map<Task, EntryId>

    constructor (maxActiveKeys: Option<nat>)
      requires maxActiveKeys != Some(0)
      ensures Valid() && roles == map[] && entries == map[] && this.maxActiveKeys == maxActiveKeys
    {
      this.maxActiveKeys := maxActiveKeys;
      entries, objects, nextId, roles, frames := map[], map[], 0, map[], map[];
    }

    ghost function State(): Tables
      reads this
    {
      Tables(entries, objects, nextId, roles, frames)
    }

    ghost predicate Valid()
      reads this
    {
      && Linked(State()) && Agrees(State())
      && (maxActiveKeys.Some? ==> |entries| <= maxActiveKeys.value)
    }

    /**
      An entry exists exactly for the keys in use, a lock is free exactly when no task is inside, at most
      one task is inside each key, and the registry is empty once all tasks have left.
     */
    lemma RegistryFollowsRoles()
      requires Valid()
      ensures entries.Keys == ActiveKeys(roles) && |entries| == |ActiveKeys(roles)|
      ensures MutuallyExclusive(roles) && WithinCapacity(roles, maxActiveKeys)
      ensures forall key | key in entries :: objects[entries[key]].holder.None? <==> IsFree(roles, key)
      ensures roles == map[] ==> entries == map[]
    {
      AgreementFollowsRoles(State());
      assert |entries.Keys| == |entries|;
    }

    /** The start of `hold`: a new key needs room, and a task becomes a user before it waits. */
    method EnterHold(task: Task, key: Key) returns (admitted: bool)
      requires Valid() && task !in roles
      modifies this
      ensures Valid()
      ensures admitted <==> Admits(old(roles), key, maxActiveKeys)
      ensures roles == SpecStep(old(roles), Enter(task, key), maxActiveKeys)
    {
      ghost var before := State();
      AdmitsIffRoom(before, key, maxActiveKeys);
      if key in entries {
        JoinEntry(task, key);
        JoiningKeeps(before, task, key);
      } else {
        if maxActiveKeys.Some? && |entries| >= maxActiveKeys.value {
          return false;
        }
        CreateEntry(task, key);
        CreatingLinks(before, task, key);
        CreatingAgrees(before, task, key);
      }
      admitted := true;
    }

    method JoinEntry(task: Task, key: Key)
      requires key in entries && entries[key] in objects
      modifies this
      ensures State() == Joined(old(State()), task, key)
    {
      var entry := entries[key];
      objects := objects[entry := objects[entry].(users := objects[entry].users + 1)];
      roles, frames := roles[task := Role(key, false)], frames[task := entry];
    }

    method CreateEntry(task: Task, key: Key)
      modifies this
      ensures State() == Created(old(State()), task, key)
    {
      var entry := nextId;
      nextId := nextId + 1;
      objects := objects[entry := EntryState(1, None)];
      entries := entries[key := entry];
      roles, frames := roles[task := Role(key, false)], frames[task := entry];
    }

    /** The lock is handed to a task that waits for it, if nobody holds it. */
    method AcquireLock(task: Task) returns (acquired: bool)
      requires Valid() && task in roles && !roles[task].inside
      modifies this`objects, this`roles
      ensures Valid()
      ensures acquired <==> IsFree(old(roles), old(roles)[task].key)
      ensures roles == SpecStep(old(roles), Acquire(task), maxActiveKeys)
    {
      ghost var before := State();
      FreeIffNotHeld(before, task);
      acquired := objects[frames[task]].holder.None?;
      if acquired {
        TakeLock(task);
        AcquiringLinks(before, task);
        AcquiringAgrees(before, task);
      }
    }

    method TakeLock(task: Task)
      requires task in roles && task in frames && frames[task] in objects
      modifies this`objects, this`roles
      ensures State() == Acquired(old(State()), task)
    {
      var entry := frames[task];
      objects := objects[entry := objects[entry].(holder := Some(task))];
      roles := roles[task := Role(roles[task].key, true)];
    }

    /** The `finally` of `hold`: release the lock if it was acquired, and drop the entry with its last user. */
    method LeaveHold(task: Task)
      requires Valid() && task in roles
      modifies this
      ensures Valid() && roles == SpecStep(old(roles), Leave(task), maxActiveKeys)
    {
      ghost var before := State();
      HasUsers(before, task);
      DropRole(task);
      LeavingLinks(before, task);
      LeavingAgrees(before, task);
    }

    method DropRole(task: Task)
      requires task in roles && task in frames && frames[task] in objects && objects[frames[task]].users > 0
      modifies this
      ensures State() == Left(old(State()), task)
    {
      var Role(key, inside) := roles[task];
      var entry := frames[task];
      objects := objects[entry := AfterLeaving(objects[entry], inside)];
      roles, frames := roles - {task}, frames - {task};
      if objects[entry].users == 0 && key in entries && entries[key] == entry {
        entries := entries - {key};
      }
    }
  }
}
