/**
  Turn baselines of the T3 adapter: an insertion-ordered table that must keep room for the
  sends in flight and must never evict the baseline of an active turn.
 */
module T3Baselines {
  import opened Wrappers

  datatype Turn = Turn(thread: string, turnId: string)

  type Baseline = set<string>

  type SendId = nat

  /**
    The ordered table as its key order and its values, the active turns, the reservation counter, and
    the sends that hold a reservation: those whose local `reserved` is true.
   */
  datatype State = State(
    order: seq<Turn>, baselines: map<Turn, Baseline>, active: set<Turn>, reserved: int, sends: set<SendId>)

  function Elements(order: seq<Turn>): set<Turn> { set turn | turn in order }

  lemma ElementsOfCons(turn: Turn, rest: seq<Turn>)
    ensures Elements([turn] + rest) == {turn} + Elements(rest)
  {
  }

  function Without(order: seq<Turn>, turn: Turn): seq<Turn> {
    if order == [] then []
    else if order[0] == turn then Without(order[1..], turn)
    else [order[0]] + Without(order[1..], turn)
  }

  // ---- Eviction: the oldest inactive entries, no more than needed ----

  function Inactive(order: seq<Turn>, active: set<Turn>): nat {
    if order == [] then 0 else (if order[0] in active then 0 else 1) + Inactive(order[1..], active)
  }

  /** The order without its n oldest inactive entries. */
  function DropInactive(order: seq<Turn>, active: set<Turn>, n: nat): seq<Turn> {
    if order == [] || n == 0 then order
    else if order[0] in active then [order[0]] + DropInactive(order[1..], active, n)
    else DropInactive(order[1..], active, n - 1)
  }

  function Min(a: nat, b: nat): nat { if a < b then a else b }

  /** How many entries must go so that one more reservation fits. */
  function Excess(stored: nat, reserved: int, max: nat): nat {
    if stored + reserved >= max then stored + reserved - max + 1 else 0
  }

  lemma {:induction false} DropInactiveKeeps(order: seq<Turn>, active: set<Turn>, n: nat)
    ensures var kept := DropInactive(order, active, n);
            && |kept| == |order| - Min(n, Inactive(order, active))
            && Elements(kept) <= Elements(order)
            && (forall turn | turn in order && turn in active :: turn in kept)
            && Inactive(kept, active) == Inactive(order, active) - Min(n, Inactive(order, active))
    decreases |order|
  {
    if order != [] && n > 0 {
      assert order == [order[0]] + order[1..];
      ElementsOfCons(order[0], order[1..]);
      if order[0] in active {
        DropInactiveKeeps(order[1..], active, n);
        assert DropInactive(order, active, n)[1..] == DropInactive(order[1..], active, n);
        ElementsOfCons(order[0], DropInactive(order[1..], active, n));
      } else {
        DropInactiveKeeps(order[1..], active, n - 1);
      }
    }
  }

  predicate Distinct(order: seq<Turn>) {
    forall i, j | 0 <= i < j < |order| :: order[i] != order[j]
  }

  lemma {:induction false} DropInactiveIsDistinct(order: seq<Turn>, active: set<Turn>, n: nat)
    requires Distinct(order)
    ensures Distinct(DropInactive(order, active, n))
    decreases |order|
  {
    if order != [] && n > 0 {
      var rest := order[1..];
      if order[0] in active {
        DropInactiveIsDistinct(rest, active, n);
        DropInactiveKeeps(rest, active, n);
        assert order[0] !in Elements(rest);
      } else {
        DropInactiveIsDistinct(rest, active, n - 1);
      }
    }
  }

  lemma {:induction false} WithoutFacts(order: seq<Turn>, turn: Turn)
    requires Distinct(order)
    ensures var rest := Without(order, turn);
            && turn !in rest && Distinct(rest)
            && Elements(rest) == Elements(order) - {turn}
            && |rest| == |order| - (if turn in order then 1 else 0)
    decreases |order|
  {
    if order != [] {
      WithoutFacts(order[1..], turn);
      assert order[0] !in order[1..];
      assert order == [order[0]] + order[1..];
      ElementsOfCons(order[0], order[1..]);
      if order[0] != turn {
        var rest := Without(order[1..], turn);
        ElementsOfCons(order[0], rest);
        assert order[0] !in Elements(rest);
      }
    }
  }

  // ---- Specification of the four operations ----

  function Restrict(baselines: map<Turn, Baseline>, order: seq<Turn>): map<Turn, Baseline> {
    map turn | turn in baselines && turn in order :: baselines[turn]
  }

  /** The table without its n oldest inactive entries. */
  function Evicted(s: State, n: nat): State {
    var order := DropInactive(s.order, s.active, n);
    s.(order := order, baselines := Restrict(s.baselines, order))
  }

  /** Evicts as many inactive entries as needed or available; the reservation is granted exactly if that makes room. */
  function Reserve(s: State, send: SendId, max: nat): (State, bool) {
    var excess := Excess(|s.order|, s.reserved, max);
    var evicted := Evicted(s, excess);
    if excess <= Inactive(s.order, s.active)
    then (evicted.(reserved := s.reserved + 1, sends := s.sends + {send}), true)
    else (evicted, false)
  }

  function Record(s: State, send: SendId, turn: Turn, baseline: Baseline): State {
    s.(order := Without(s.order, turn) + [turn], baselines := s.baselines[turn := baseline],
       active := s.active + {turn}, reserved := s.reserved - 1, sends := s.sends - {send})
  }

  function Release(s: State, send: SendId): State {
    s.(reserved := s.reserved - 1, sends := s.sends - {send})
  }

  function MarkTerminal(s: State, turn: Turn): State { s.(active := s.active - {turn}) }

  datatype Step =
    | ReserveStep(send: SendId)
    | RecordStep(send: SendId, turn: Turn, baseline: Baseline)
    | ReleaseStep(send: SendId)
    | TerminalStep(turn: Turn)

  /** A send reserves once, and then records or releases once: its local `reserved` guards both. */
  function Apply(s: State, step: Step, max: nat): State {
    match step
    case ReserveStep(send) => if send in s.sends then s else Reserve(s, send, max).0
    case RecordStep(send, turn, baseline) => if send in s.sends then Record(s, send, turn, baseline) else s
    case ReleaseStep(send) => if send in s.sends then Release(s, send) else s
    case TerminalStep(turn) => MarkTerminal(s, turn)
  }

  function Run(steps: seq<Step>, max: nat): State {
    if steps == [] then State([], map[], {}, 0, {}) else Apply(Run(steps[..|steps| - 1], max), steps[|steps| - 1], max)
  }

  // ---- Conservation ----

  ghost predicate Conserved(s: State, max: nat) {
    && Distinct(s.order)
    && s.baselines.Keys == Elements(s.order)
    && s.reserved == |s.sends|
    && |s.order| + s.reserved <= max
    && s.active <= Elements(s.order)
  }

  lemma ReserveConserves(s: State, send: SendId, max: nat)
    requires Conserved(s, max) && send !in s.sends
    ensures Conserved(Reserve(s, send, max).0, max)
    ensures s.active == Reserve(s, send, max).0.active
  {
    var excess := Excess(|s.order|, s.reserved, max);
    DropInactiveKeeps(s.order, s.active, excess);
    DropInactiveIsDistinct(s.order, s.active, excess);
    var order := DropInactive(s.order, s.active, excess);
    assert Restrict(s.baselines, order).Keys == Elements(order) by {
      forall turn | turn in order ensures turn in s.baselines {
        assert turn in Elements(order) && turn in Elements(s.order);
      }
    }
    forall turn | turn in s.active ensures turn in Elements(order) { assert turn in Elements(s.order); }
  }

  lemma RecordConserves(s: State, send: SendId, turn: Turn, baseline: Baseline, max: nat)
    requires Conserved(s, max) && send in s.sends
    ensures Conserved(Record(s, send, turn, baseline), max)
  {
    WithoutFacts(s.order, turn);
    var after := Record(s, send, turn, baseline);
    assert Elements(after.order) == Elements(Without(s.order, turn)) + {turn};
  }

  lemma {:induction false} RunConserves(steps: seq<Step>, max: nat)
    ensures Conserved(Run(steps, max), max)
    decreases |steps|
  {
    if steps != [] {
      RunConserves(steps[..|steps| - 1], max);
      var s := Run(steps[..|steps| - 1], max);
      match steps[|steps| - 1]
      case ReserveStep(send) => if send !in s.sends { ReserveConserves(s, send, max); }
      case RecordStep(send, turn, baseline) => if send in s.sends { RecordConserves(s, send, turn, baseline, max); }
      case ReleaseStep(_) =>
      case TerminalStep(_) =>
    }
  }

  /**
    Over every interleaving of sends and terminal marks, baselines and reservations together stay within the
    bound, reservations are exactly the sends between reserve and record or release, so they never underflow,
    and the baseline of an active turn is stored.
   */
  lemma ReservationsAreConserved(steps: seq<Step>, max: nat)
    ensures var s := Run(steps, max);
            && |s.baselines| + s.reserved <= max
            && s.reserved == |s.sends| && (s.sends != {} ==> s.reserved > 0)
            && s.active <= s.baselines.Keys
  {
    RunConserves(steps, max);
    var s := Run(steps, max);
    ElementsCount(s.order);
    assert |s.baselines.Keys| == |s.baselines|;
  }

  lemma {:induction false} ElementsCount(order: seq<Turn>)
    requires Distinct(order)
    ensures |Elements(order)| == |order|
    decreases |order|
  {
    if order != [] {
      ElementsCount(order[1..]);
      assert order == [order[0]] + order[1..];
      assert Elements(order) == Elements(order[1..]) + {order[0]};
    }
  }

  /**
    A reservation is refused exactly when active baselines and reservations already fill the bound; it never evicts
    an active one.
   */
  lemma RefusedExactlyWhenPinned(s: State, send: SendId, max: nat)
    requires Conserved(s, max) && max > 0
    ensures Reserve(s, send, max).1 <==> |s.active| + s.reserved < max
    ensures forall turn | turn in s.active :: turn in Reserve(s, send, max).0.baselines
                                              && Reserve(s, send, max).0.baselines[turn] == s.baselines[turn]
  {
    InactiveCount(s.order, s.active);
    DropInactiveKeeps(s.order, s.active, Excess(|s.order|, s.reserved, max));
    assert Elements(s.order) * s.active == s.active;
    forall turn | turn in s.active ensures turn in s.order { assert turn in Elements(s.order); }
  }

  lemma {:induction false} InactiveCount(order: seq<Turn>, active: set<Turn>)
    requires Distinct(order)
    ensures Inactive(order, active) + |Elements(order) * active| == |order|
    decreases |order|
  {
    if order != [] {
      var rest := order[1..];
      InactiveCount(rest, active);
      assert order == [order[0]] + rest;
      assert order[0] !in Elements(rest);
      assert Elements(order) * active
          == if order[0] in active then Elements(rest) * active + {order[0]} else Elements(rest) * active;
    }
  }

  // ---- One eviction of the loop ----

  function RemoveAt(order: seq<Turn>, i: nat): seq<Turn>
    requires i < |order|
  {
    order[..i] + order[i + 1..]
  }

  /** Removing the oldest inactive entry that is left drops one more. */
  lemma {:induction false} DropNext(order: seq<Turn>, active: set<Turn>, n: nat, i: nat)
    requires i < |DropInactive(order, active, n)|
    requires var kept := DropInactive(order, active, n);
             kept[i] !in active && forall j | 0 <= j < i :: kept[j] in active
    ensures RemoveAt(DropInactive(order, active, n), i) == DropInactive(order, active, n + 1)
    ensures n < Inactive(order, active)
    decreases |order|
  {
    var kept := DropInactive(order, active, n);
    if order[0] in active {
      if n == 0 {
        assert kept == order;
        assert DropInactive(order[1..], active, 0) == order[1..];
      }
      assert kept == [order[0]] + DropInactive(order[1..], active, n);
      assert i > 0;
      assert kept[1..] == DropInactive(order[1..], active, n);
      DropNext(order[1..], active, n, i - 1);
      assert RemoveAt(kept, i) == [order[0]] + RemoveAt(kept[1..], i - 1);
    } else if n == 0 {
      assert i == 0;
      assert DropInactive(order[1..], active, 0) == order[1..];
    } else {
      DropNext(order[1..], active, n - 1, i);
    }
  }

  lemma {:induction false} AllActive(order: seq<Turn>, active: set<Turn>)
    requires forall turn | turn in order :: turn in active
    ensures Inactive(order, active) == 0
  {
    if order != [] {
      assert order[0] in order;
      AllActive(order[1..], active);
    }
  }

  /** Once every inactive entry has gone, asking for more drops nothing more. */
  lemma {:induction false} DropNoMore(order: seq<Turn>, active: set<Turn>, n: nat, more: nat)
    requires Inactive(order, active) <= n <= more
    ensures DropInactive(order, active, n) == DropInactive(order, active, more)
    decreases |order|
  {
    if order != [] {
      if order[0] in active {
        DropNoMore(order[1..], active, n, more);
        if n == 0 && more > 0 {
          assert DropInactive(order[1..], active, 0) == order[1..];
          assert order == [order[0]] + order[1..];
        }
      } else {
        DropNoMore(order[1..], active, n - 1, more - 1);
      }
    }
  }

  lemma RestrictRemoves(baselines: map<Turn, Baseline>, order: seq<Turn>, i: nat)
    requires Distinct(order) && i < |order|
    ensures Restrict(baselines, order) - {order[i]} == Restrict(baselines, RemoveAt(order, i))
  {
    var rest := RemoveAt(order, i);
    forall turn ensures turn in rest <==> turn in order && turn != order[i] {
      if turn in order && turn != order[i] {
        var j :| 0 <= j < |order| && order[j] == turn;
        assert rest[if j < i then j else j - 1] == turn;
      }
      if turn in rest {
        var j :| 0 <= j < |rest| && rest[j] == turn;
        assert order[if j < i then j else j + 1] == turn;
      }
    }
  }

  lemma NothingEvicted(s: State, max: nat)
    requires Conserved(s, max)
    ensures Evicted(s, 0) == s
  {
    forall turn | turn in s.baselines ensures turn in s.order { assert turn in Elements(s.order); }
    assert Restrict(s.baselines, s.order) == s.baselines;
  }

  lemma EvictedLength(s: State, n: nat)
    requires Distinct(s.order) && n <= Inactive(s.order, s.active)
    ensures |Evicted(s, n).order| == |s.order| - n
  {
    DropInactiveKeeps(s.order, s.active, n);
  }

  lemma EvictOne(s: State, n: nat, i: nat)
    requires Distinct(s.order) && n <= Inactive(s.order, s.active)
    requires var order := Evicted(s, n).order;
             i < |order| && order[i] !in s.active && forall j | 0 <= j < i :: order[j] in s.active
    ensures var order := Evicted(s, n).order;
            n < Inactive(s.order, s.active)
            && Evicted(s, n + 1) == Evicted(s, n).(order := order[..i] + order[i + 1..],
                                                   baselines := Evicted(s, n).baselines - {order[i]})
  {
    DropInactiveIsDistinct(s.order, s.active, n);
    DropNext(s.order, s.active, n, i);
    RestrictRemoves(s.baselines, Evicted(s, n).order, i);
  }

  /** With only active entries left and still no room, the reservation is refused. */
  lemma EvictNoMore(s: State, send: SendId, n: nat, max: nat)
    requires Conserved(s, max) && n <= Inactive(s.order, s.active) && n <= Excess(|s.order|, s.reserved, max)
    requires |Evicted(s, n).order| + s.reserved >= max
    requires forall turn | turn in Evicted(s, n).order :: turn in s.active
    ensures Reserve(s, send, max) == (Evicted(s, n), false)
  {
    EvictedLength(s, n);
    AllActive(Evicted(s, n).order, s.active);
    DropInactiveKeeps(s.order, s.active, n);
    DropNoMore(s.order, s.active, n, Excess(|s.order|, s.reserved, max));
  }

  // ---- The adapter's fields ----

  class TurnBaselines {
    const maxEntries: nat
    var order: seq<Turn>
    var baselines: map<Turn, Baseline>
    var active: set<Turn>
    var reserved: int
    ghost var sends: set<SendId>

    constructor (maxEntries: nat)
      requires maxEntries > 0
      ensures this.maxEntries == maxEntries && Valid() && Fields() == Run([], maxEntries)
    {
      this.maxEntries := maxEntries;
      order, baselines, active, reserved, sends := [], map[], {}, 0, {};
    }

    ghost function Fields(): State
      reads this
    {
      State(order, baselines, active, reserved, sends)
    }

    ghost predicate Valid()
      reads this
    {
      maxEntries > 0 && Conserved(Fields(), maxEntries)
    }

    /** The position of the oldest entry that is not active. */
    method FindEvictable() returns (position: Option<nat>)
      ensures position.Some? ==> position.value < |order| && order[position.value] !in active
                                 && forall i | 0 <= i < position.value :: order[i] in active
      ensures position.None? ==> forall turn | turn in order :: turn in active
    {
      for i := 0 to |order|
        invariant forall j | 0 <= j < i :: order[j] in active
      {
        if order[i] !in active {
          return Some(i);
        }
      }
      position := None;
    }

    /** The reservation loop: evict until there is room, or fail when every entry is active. */
    method ReserveTurnBaseline(ghost send: SendId) returns (granted: bool)
      requires Valid() && send !in sends
      modifies this
      ensures Valid()
      ensures (Fields(), granted) == Reserve(old(Fields()), send, maxEntries)
    {
      ghost var before := Fields();
      ghost var excess := Excess(|order|, reserved, maxEntries);
      ghost var evicted: nat := 0;
      NothingEvicted(before, maxEntries);
      while |order| + reserved >= maxEntries
        invariant evicted <= excess && evicted <= Inactive(before.order, before.active)
        invariant Fields() == Evicted(before, evicted)
        decreases |order|
      {
        EvictedLength(before, evicted);
        var evictable := FindEvictable();
        if evictable.None? {
          EvictNoMore(before, send, evicted, maxEntries);
          ReserveConserves(before, send, maxEntries);
          return false;
        }
        var i := evictable.value;
        EvictOne(before, evicted, i);
        order, baselines := order[..i] + order[i + 1..], baselines - {order[i]};
        evicted := evicted + 1;
      }
      EvictedLength(before, evicted);
      reserved := reserved + 1;
      sends := sends + {send};
      ReserveConserves(before, send, maxEntries);
      granted := true;
    }

    method RecordTurnBaseline(ghost send: SendId, turn: Turn, baseline: Baseline)
      requires Valid() && send in sends
      modifies this
      ensures old(reserved) > 0   // so the check against recording without a reservation never fires
      ensures Valid() && Fields() == Record(old(Fields()), send, turn, baseline)
    {
      RecordConserves(Fields(), send, turn, baseline, maxEntries);
      order := Without(order, turn) + [turn];
      baselines := baselines[turn := baseline];
      active := active + {turn};
      reserved := reserved - 1;
      sends := sends - {send};
    }

    method ReleaseTurnBaselineReservation(ghost send: SendId)
      requires Valid() && send in sends
      modifies this
      ensures old(reserved) > 0   // so the underflow check never fires
      ensures Valid() && Fields() == Release(old(Fields()), send)
    {
      reserved := reserved - 1;
      sends := sends - {send};
    }

    method MarkTurnTerminal(turn: Turn)
      requires Valid()
      modifies this
      ensures Valid() && Fields() == MarkTerminal(old(Fields()), turn)
    {
      active := active - {turn};
    }
  }
}
