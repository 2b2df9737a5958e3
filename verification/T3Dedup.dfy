/**
  The deduplication tables of the T3 adapter: one insertion-ordered table of (thread, id) pairs that
  bounds the size, and one set of ids per thread that answers lookups. Messages and terminal
  turns each have such a pair of structures.
 */
module T3Dedup {
  type Thread = string

  type Id = string

  datatype Key = Key(thread: Thread, id: Id)

  // ---- Specification: a bounded FIFO that inserts only what is absent ----

  /** The newest `max` entries. */
  function Newest(order: seq<Key>, max: nat): (newest: seq<Key>)
    ensures |newest| <= max && |newest| <= |order|
  {
    if |order| <= max then order else order[|order| - max..]
  }

  function Insert(order: seq<Key>, key: Key, max: nat): seq<Key> {
    if key in order then order else Newest(order + [key], max)
  }

  function Fifo(keys: seq<Key>, max: nat): seq<Key> {
    if keys == [] then [] else Insert(Fifo(keys[..|keys| - 1], max), keys[|keys| - 1], max)
  }

  /** The keys that were new when they came, oldest first. */
  function Additions(keys: seq<Key>, max: nat): seq<Key> {
    if keys == [] then []
    else
      var earlier := keys[..|keys| - 1];
      Additions(earlier, max) + if keys[|keys| - 1] in Fifo(earlier, max) then [] else [keys[|keys| - 1]]
  }

  predicate Distinct(order: seq<Key>) {
    forall i, j | 0 <= i < j < |order| :: order[i] != order[j]
  }

  lemma NewestOfAppended(log: seq<Key>, key: Key, max: nat)
    ensures Newest(Newest(log, max) + [key], max) == Newest(log + [key], max)
  {
  }

  lemma InsertKeeps(order: seq<Key>, key: Key, max: nat)
    requires Distinct(order) && |order| <= max && max > 0
    ensures Distinct(Insert(order, key, max)) && |Insert(order, key, max)| <= max
    ensures key in Insert(order, key, max)
    ensures key !in order ==> Insert(order, key, max)[|Insert(order, key, max)| - 1] == key
  {
    if key !in order {
      assert Distinct(order + [key]);
      var newest := Newest(order + [key], max);
      assert newest[|newest| - 1] == key;
    }
  }

  /**
    After any sequence of remembers the table holds exactly the newest `max` additions, so an id is
    forgotten only after `max` later additions, and the newest addition is never the one evicted.
   */
  lemma {:induction false} TableHoldsNewestAdditions(keys: seq<Key>, max: nat)
    requires max > 0
    ensures Fifo(keys, max) == Newest(Additions(keys, max), max)
    ensures Distinct(Fifo(keys, max)) && |Fifo(keys, max)| <= max
    ensures keys != [] ==> keys[|keys| - 1] in Fifo(keys, max)
    decreases |keys|
  {
    if keys != [] {
      var earlier, key := keys[..|keys| - 1], keys[|keys| - 1];
      TableHoldsNewestAdditions(earlier, max);
      InsertKeeps(Fifo(earlier, max), key, max);
      if key in Fifo(earlier, max) {
        assert Additions(keys, max) == Additions(earlier, max);
      } else {
        NewestOfAppended(Additions(earlier, max), key, max);
      }
    }
  }

  // ---- The two structures ----

  type PerThread = map<Thread, set<Id>>

  predicate Lookup(sets: PerThread, key: Key) { key.thread in sets && key.id in sets[key.thread] }

  /** The ordered table's keys are exactly the pairs in the per-thread sets, and no per-thread set is empty. */
  ghost predicate Agree(order: seq<Key>, sets: PerThread) {
    && (forall key: Key :: key in order <==> Lookup(sets, key))
    && (forall thread | thread in sets :: sets[thread] != {})
  }

  function Added(sets: PerThread, key: Key): PerThread {
    sets[key.thread := (if key.thread in sets then sets[key.thread] else {}) + {key.id}]
  }

  function Removed(sets: PerThread, key: Key): PerThread {
    if key.thread !in sets then sets
    else if sets[key.thread] - {key.id} == {} then sets - {key.thread}
    else sets[key.thread := sets[key.thread] - {key.id}]
  }

  lemma AddedAgrees(order: seq<Key>, sets: PerThread, key: Key)
    requires Agree(order, sets)
    ensures Agree(order + [key], Added(sets, key))
  {
    forall other: Key ensures other in order + [key] <==> Lookup(Added(sets, key), other) {
      assert other in order <==> Lookup(sets, other);
    }
  }

  lemma RemovedLookup(sets: PerThread, key: Key, other: Key)
    ensures Lookup(Removed(sets, key), other) <==> Lookup(sets, other) && other != key
  {
    if other.thread == key.thread && key.thread in sets {
      assert other.id in sets[key.thread] - {key.id} <==> other.id in sets[key.thread] && other.id != key.id;
    }
  }

  lemma RemovedAgrees(order: seq<Key>, sets: PerThread)
    requires order != [] && Distinct(order) && Agree(order, sets)
    ensures Agree(order[1..], Removed(sets, order[0])) && Distinct(order[1..])
  {
    forall other: Key ensures other in order[1..] <==> Lookup(Removed(sets, order[0]), other) {
      RemovedLookup(sets, order[0], other);
      assert order == [order[0]] + order[1..];
    }
  }

  class IdentityTable {
    const maxEntries: nat
    var order: seq<Key>
    var sets: PerThread

    constructor (maxEntries: nat)
      requires maxEntries > 0
      ensures this.maxEntries == maxEntries && Valid() && order == []
    {
      this.maxEntries := maxEntries;
      order, sets := [], map[];
    }

    ghost predicate Valid()
      reads this
    {
      && maxEntries > 0 && |order| <= maxEntries
      && Distinct(order) && Agree(order, sets)
    }

    /** Used for terminal turns: true exactly if the id was not in the table. */
    method Remember(thread: Thread, id: Id) returns (added: bool)
      requires Valid()
      modifies this
      ensures Valid()
      ensures added <==> Key(thread, id) !in old(order)
      ensures order == Insert(old(order), Key(thread, id), maxEntries)
    {
      var key := Key(thread, id);
      assert key in order <==> Lookup(sets, key);
      if thread in sets && id in sets[thread] {
        return false;
      }
      InsertKeeps(order, key, maxEntries);
      AddedAgrees(order, sets, key);
      sets := Added(sets, key);
      order := order + [key];
      EvictExcess();
      added := true;
    }

    method EvictExcess()
      requires Distinct(order) && Agree(order, sets)
      modifies this
      ensures order == Newest(old(order), maxEntries) && Distinct(order) && Agree(order, sets)
    {
      ghost var before := order;
      while |order| > maxEntries
        invariant |order| <= |before| && (|order| >= maxEntries || order == before)
        invariant order == before[|before| - |order|..]
        invariant Distinct(order) && Agree(order, sets)
      {
        EvictOldest();
      }
    }

    /** One turn of the eviction loop: the oldest entry leaves both structures. */
    method EvictOldest()
      requires order != [] && Distinct(order) && Agree(order, sets)
      modifies this
      ensures order == old(order)[1..] && sets == Removed(old(sets), old(order)[0])
      ensures Distinct(order) && Agree(order, sets)
    {
      RemovedAgrees(order, sets);
      var evicted := order[0];
      order := order[1..];
      if evicted.thread in sets {
        var remaining := sets[evicted.thread] - {evicted.id};
        if remaining == {} {
          sets := sets - {evicted.thread};
        } else {
          sets := sets[evicted.thread := remaining];
        }
      }
    }

    /** Used for messages: the empty id is never remembered. */
    method RememberMessage(thread: Thread, id: Id)
      requires Valid()
      modifies this
      ensures Valid()
      ensures order == if id == "" then old(order) else Insert(old(order), Key(thread, id), maxEntries)
    {
      if id != "" {
        var _ := Remember(thread, id);
      }
    }

    /** Membership as the adapter asks it, from the per-thread sets alone. */
    method Seen(thread: Thread, id: Id) returns (seen: bool)
      requires Valid()
      ensures seen <==> Key(thread, id) in order
    {
      assert Key(thread, id) in order <==> Lookup(sets, Key(thread, id));
      seen := thread in sets && id in sets[thread];
    }
  }
}
