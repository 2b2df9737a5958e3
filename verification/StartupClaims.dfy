/**
  Claims that arrive while the Gateway starts: leases transfer them, a bounded FIFO holds them, and a
  start either drains it into processing or rolls it back into releases.  The steps are the pieces of code
  between two awaits.
 */
module StartupClaims {
  /** One claim is one owner token. */
  type Claim = nat

  type TaskId = nat

  // ---- The lease of one claim ----

  datatype Lease = Open | Refreshing | Transferred | Closed | Releasing | Released

  datatype LeaseEvent =
    | Deliver(matches: bool)         // the message matches the admission identity or not
    | Refreshed(ok: bool)
    | Release
    | ReleaseDone(ok: bool)

  /** A failed refresh closes the lease, which then releases the claim itself; a failed release reopens it. */
  function LeaseStep(l: Lease, event: LeaseEvent): Lease {
    match (l, event)
    case (Open, Deliver(matches)) => if matches then Refreshing else Releasing
    case (Refreshing, Refreshed(ok)) => if ok then Transferred else Closed
    case (Open, Release) => Releasing
    case (Releasing, ReleaseDone(ok)) => if ok then Released else Open
    case _ => l
  }

  // ---- The Gateway ----

  datatype Phase = Preparing | BringingUp | Handling | RollingBack | Succeeded | Failed

  predicate Active(phase: Phase) { !phase.Succeeded? && !phase.Failed? }

  /**
    The flags, the admission queue and the start tasks; and as history the claims that arrived, that
    were handed to processing, that the Gateway gave to release, and that a reset dropped, each in order.
   */
  datatype Gateway = Gateway(
    accepting: bool, starting: bool,
    queue: seq<Claim>, overflowed: bool, overflowCount: nat, countAtReset: nat,
    tasks: map<TaskId, Phase>,
    arrived: seq<Claim>, handed: seq<Claim>, released: seq<Claim>, dropped: seq<Claim>)

  const STOPPED := Gateway(false, false, [], false, 0, 0, map[], [], [], [], [])

  /** A claim that its lease has transferred. */
  function Handoff(g: Gateway, claim: Claim, max: nat): Gateway {
    var h := g.(arrived := g.arrived + [claim]);
    if !g.accepting then h.(released := g.released + [claim])
    else if !g.starting then h.(handed := g.handed + [claim])
    else if g.overflowed then h.(released := g.released + [claim])
    else if |g.queue| >= max then
      h.(overflowed := true, overflowCount := g.overflowCount + 1, released := g.released + [claim])
    else h.(queue := g.queue + [claim])
  }

  function StartCalled(g: Gateway, task: TaskId, preparations: bool): Gateway {
    g.(starting := true, accepting := !preparations, queue := [], overflowed := false,
       countAtReset := g.overflowCount, dropped := g.dropped + g.queue,
       tasks := g.tasks[task := if preparations then Preparing else BringingUp])
  }

  function Prepared(g: Gateway, task: TaskId): Gateway { g.(accepting := true, tasks := g.tasks[task := BringingUp]) }

  /** The rollback loop up to its next await, or past its end. */
  function RollbackTurn(g: Gateway, task: TaskId): Gateway {
    if g.queue == [] then g.(tasks := g.tasks[task := Failed])
    else g.(queue := g.queue[1..], released := g.released + [g.queue[0]], tasks := g.tasks[task := RollingBack])
  }

  function StartRaised(g: Gateway, task: TaskId): Gateway {
    RollbackTurn(g.(accepting := false, starting := false), task)
  }

  /** The drain loop up to its next await, or past its end. */
  function DrainTurn(g: Gateway, task: TaskId): Gateway {
    if g.overflowed then StartRaised(g, task)
    else if g.queue == [] then g.(starting := false, tasks := g.tasks[task := Succeeded])
    else g.(queue := g.queue[1..], handed := g.handed + [g.queue[0]], tasks := g.tasks[task := Handling])
  }

  datatype GatewayEvent =
    | Start(task: TaskId, preparations: bool)
    | PreparationsDone(task: TaskId)
    | Checkpoint(task: TaskId)                 // the overflow check after an Application or Channel started
    | Raised(task: TaskId)                     // anything raised before the drain
    | BroughtUp(task: TaskId)                  // everything is up: the drain begins
    | HandlingDone(task: TaskId, ok: bool)
    | RollbackReleaseDone(task: TaskId)        // it makes no difference whether the release failed
    | Stop

  predicate In(g: Gateway, task: TaskId, phase: Phase) { task in g.tasks && g.tasks[task] == phase }

  function GatewayStep(g: Gateway, event: GatewayEvent): Gateway {
    match event
    case Start(task, preparations) => if task in g.tasks then g else StartCalled(g, task, preparations)
    case PreparationsDone(task) => if In(g, task, Preparing) then Prepared(g, task) else g
    case Checkpoint(task) => if In(g, task, BringingUp) && g.overflowed then StartRaised(g, task) else g
    case Raised(task) => if In(g, task, Preparing) || In(g, task, BringingUp) then StartRaised(g, task) else g
    case BroughtUp(task) => if In(g, task, BringingUp) then DrainTurn(g, task) else g
    case HandlingDone(task, ok) =>
      if !In(g, task, Handling) then g else if ok then DrainTurn(g, task) else StartRaised(g, task)
    case RollbackReleaseDone(task) => if In(g, task, RollingBack) then RollbackTurn(g, task) else g
    case Stop => g.(accepting := false, starting := false)
  }

  // ---- The system ----

  datatype System = System(gateway: Gateway, leases: map<Claim, Lease>)

  datatype Event =
    | Claimed(claim: Claim)                              // a lease is issued for a newly acquired claim
    | OnLease(claim: Claim, leaseEvent: LeaseEvent)
    | OnGateway(gatewayEvent: GatewayEvent)

  function Step(s: System, event: Event, max: nat): System {
    match event
    case Claimed(claim) => if claim in s.leases then s else s.(leases := s.leases[claim := Open])
    case OnLease(claim, leaseEvent) =>
      if claim !in s.leases then s
      else
        var after := LeaseStep(s.leases[claim], leaseEvent);
        System(
          if after.Transferred? && !s.leases[claim].Transferred? then Handoff(s.gateway, claim, max) else s.gateway,
          s.leases[claim := after])
    case OnGateway(gatewayEvent) => s.(gateway := GatewayStep(s.gateway, gatewayEvent))
  }

  function Run(events: seq<Event>, max: nat): System {
    if events == [] then System(STOPPED, map[])
    else Step(Run(events[..|events| - 1], max), events[|events| - 1], max)
  }

  // ---- Conservation ----

  function Places(g: Gateway): multiset<Claim> {
    multiset(g.queue) + multiset(g.handed) + multiset(g.released) + multiset(g.dropped)
  }

  ghost predicate Accounted(g: Gateway, max: nat) {
    && multiset(g.arrived) == Places(g)
    && |g.queue| <= max
    && g.countAtReset <= g.overflowCount <= g.countAtReset + 1
    && (g.overflowed <==> g.overflowCount == g.countAtReset + 1)
  }

  ghost predicate ArrivedOnce(s: System) {
    forall c :: multiset(s.gateway.arrived)[c] == if c in s.leases && s.leases[c].Transferred? then 1 else 0
  }

  lemma HeadLeaves(queue: seq<Claim>)
    requires queue != []
    ensures multiset(queue) == multiset{queue[0]} + multiset(queue[1..])
  {
    assert queue == [queue[0]] + queue[1..];
  }

  lemma HandoffAccounted(g: Gateway, claim: Claim, max: nat)
    requires Accounted(g, max)
    ensures Accounted(Handoff(g, claim, max), max)
  {
  }

  lemma RollbackAccounted(g: Gateway, task: TaskId, max: nat)
    requires Accounted(g, max)
    ensures Accounted(RollbackTurn(g, task), max)
  {
    if g.queue != [] {
      HeadLeaves(g.queue);
    }
  }

  lemma DrainAccounted(g: Gateway, task: TaskId, max: nat)
    requires Accounted(g, max)
    ensures Accounted(DrainTurn(g, task), max)
  {
    if g.overflowed {
      RollbackAccounted(g.(accepting := false, starting := false), task, max);
    } else if g.queue != [] {
      HeadLeaves(g.queue);
    }
  }

  lemma RaisedAccounted(g: Gateway, task: TaskId, max: nat)
    requires Accounted(g, max)
    ensures Accounted(StartRaised(g, task), max)
  {
    RollbackAccounted(g.(accepting := false, starting := false), task, max);
  }

  lemma StartAccounted(g: Gateway, task: TaskId, preparations: bool, max: nat)
    requires Accounted(g, max)
    ensures Accounted(StartCalled(g, task, preparations), max)
  {
  }

  lemma FlagsAccounted(g: Gateway, h: Gateway, max: nat)
    requires Accounted(g, max) && h == g.(accepting := h.accepting, starting := h.starting, tasks := h.tasks)
    ensures Accounted(h, max)
  {
  }

  /** A step is a start, a change of flags or tasks only, or one of the three turns. */
  lemma GatewayStepShape(g: Gateway, event: GatewayEvent)
    ensures var after := GatewayStep(g, event);
            || after == g.(accepting := after.accepting, starting := after.starting, tasks := after.tasks)
            || (event.Start? && after == StartCalled(g, event.task, event.preparations))
            || (!event.Stop? && after == StartRaised(g, event.task))
            || (!event.Stop? && after == DrainTurn(g, event.task))
            || (!event.Stop? && after == RollbackTurn(g, event.task))
  {
  }

  lemma GatewayStepAccounted(g: Gateway, event: GatewayEvent, max: nat)
    requires Accounted(g, max)
    ensures Accounted(GatewayStep(g, event), max)
  {
    var after := GatewayStep(g, event);
    GatewayStepShape(g, event);
    if after == g.(accepting := after.accepting, starting := after.starting, tasks := after.tasks) {
      FlagsAccounted(g, after, max);
    } else if event.Start? {
      StartAccounted(g, event.task, event.preparations, max);
    } else {
      RaisedAccounted(g, event.task, max);
      DrainAccounted(g, event.task, max);
      RollbackAccounted(g, event.task, max);
    }
  }

  lemma GatewayStepArrived(g: Gateway, event: GatewayEvent)
    ensures GatewayStep(g, event).arrived == g.arrived
  {
  }

  lemma TransferOnce(s: System, claim: Claim, leaseEvent: LeaseEvent, max: nat)
    requires ArrivedOnce(s)
    ensures ArrivedOnce(Step(s, OnLease(claim, leaseEvent), max))
  {
    if claim in s.leases {
      var after := Step(s, OnLease(claim, leaseEvent), max);
      assert after.leases == s.leases[claim := LeaseStep(s.leases[claim], leaseEvent)];
      assert after.gateway.arrived
             == s.gateway.arrived
             || (after.gateway.arrived == s.gateway.arrived + [claim] && !s.leases[claim].Transferred?);
    }
  }

  lemma StepKeeps(s: System, event: Event, max: nat)
    requires Accounted(s.gateway, max) && ArrivedOnce(s)
    ensures Accounted(Step(s, event, max).gateway, max) && ArrivedOnce(Step(s, event, max))
  {
    var after := Step(s, event, max);
    match event
    case Claimed(_) => assert after.gateway == s.gateway;
    case OnLease(claim, leaseEvent) =>
      TransferOnce(s, claim, leaseEvent, max);
      HandoffAccounted(s.gateway, claim, max);
      assert after.gateway == s.gateway || after.gateway == Handoff(s.gateway, claim, max);
    case OnGateway(gatewayEvent) =>
      GatewayStepArrived(s.gateway, gatewayEvent);
      GatewayStepAccounted(s.gateway, gatewayEvent, max);
      assert after.gateway == GatewayStep(s.gateway, gatewayEvent) && after.leases == s.leases;
  }

  lemma {:induction false} RunKeeps(events: seq<Event>, max: nat)
    ensures Accounted(Run(events, max).gateway, max) && ArrivedOnce(Run(events, max))
    decreases |events|
  {
    if events != [] {
      RunKeeps(events[..|events| - 1], max);
      StepKeeps(Run(events[..|events| - 1], max), events[|events| - 1], max);
    }
  }

  /** Every start that was called found an empty queue to reset. */
  ghost predicate ResetsFindNothing(events: seq<Event>, max: nat)
    decreases |events|
  {
    events != [] ==>
      var before, event := Run(events[..|events| - 1], max), events[|events| - 1];
      && ResetsFindNothing(events[..|events| - 1], max)
      && (event.OnGateway? && event.gatewayEvent.Start? && event.gatewayEvent.task !in before.gateway.tasks
          ==> before.gateway.queue == [])
  }

  lemma DroppedOnlyByStart(s: System, event: Event, max: nat)
    ensures Step(s, event, max).gateway.dropped
            == s.gateway.dropped
               + if event.OnGateway? && event.gatewayEvent.Start? && event.gatewayEvent.task !in s.gateway.tasks
                 then s.gateway.queue else []
  {
    assert s.gateway.dropped + [] == s.gateway.dropped;
  }

  lemma {:induction false} NothingDroppedExactly(events: seq<Event>, max: nat)
    ensures Run(events, max).gateway.dropped == [] <==> ResetsFindNothing(events, max)
    decreases |events|
  {
    if events != [] {
      NothingDroppedExactly(events[..|events| - 1], max);
      DroppedOnlyByStart(Run(events[..|events| - 1], max), events[|events| - 1], max);
    }
  }

  /**
    Claim conservation, over every interleaving of leases, starts and stops: a claim arrives at most once
    and exactly if its lease is transferred, so never once the lease has recorded its own release; and each
    arrived claim is in exactly one place: queued, handed to processing, given to release, or dropped. No
    claim is dropped exactly if each start finds the queue empty.
   */
  lemma ClaimsAreConserved(events: seq<Event>, max: nat, c: Claim)
    ensures var s := Run(events, max);
            && multiset(s.gateway.arrived)[c] <= 1
            && multiset(s.gateway.arrived)[c] == Places(s.gateway)[c]
            && (c in s.gateway.arrived <==> c in s.leases && s.leases[c] == Transferred)
            && |s.gateway.queue| <= max
            && (s.gateway.dropped == [] <==> ResetsFindNothing(events, max))
  {
    RunKeeps(events, max);
    NothingDroppedExactly(events, max);
    var s := Run(events, max);
    assert c in s.gateway.arrived <==> c in multiset(s.gateway.arrived);
  }

  lemma SuccessComesFromDrain(g: Gateway, event: GatewayEvent, task: TaskId)
    requires !In(g, task, Succeeded) && In(GatewayStep(g, event), task, Succeeded)
    ensures var after := GatewayStep(g, event); after.queue == [] && !after.overflowed && !after.starting
  {
  }

  /** A start succeeds only with an empty queue and without an overflow since the latest reset. */
  lemma SuccessMeansDrained(events: seq<Event>, event: GatewayEvent, task: TaskId, max: nat)
    requires var g := Run(events, max).gateway;
             !In(g, task, Succeeded) && In(GatewayStep(g, event), task, Succeeded)
    ensures var g := GatewayStep(Run(events, max).gateway, event);
            g.queue == [] && !g.overflowed && g.overflowCount == g.countAtReset && !g.starting
  {
    var g := Run(events, max).gateway;
    RunKeeps(events, max);
    SuccessComesFromDrain(g, event, task);
    GatewayStepAccounted(g, event, max);
  }

  // ---- Starts one after the other ----

  predicate NoActive(g: Gateway) { forall task | task in g.tasks :: !Active(g.tasks[task]) }

  /** A start is called only when no earlier one is still at work; stops may come at any time. */
  ghost predicate Sequential(events: seq<Event>, max: nat)
    decreases |events|
  {
    events != [] ==>
      var before, event := Run(events[..|events| - 1], max), events[|events| - 1];
      Sequential(events[..|events| - 1], max) && MayHappen(before.gateway, event)
  }

  predicate MayHappen(g: Gateway, event: Event) {
    event.OnGateway? && event.gatewayEvent.Start? ==> NoActive(g)
  }

  /** a is b with some elements left out. */
  predicate Subsequence(a: seq<Claim>, b: seq<Claim>)
    decreases |b|
  {
    if a == [] then true
    else if b == [] then false
    else
      Subsequence(a, b[..|b| - 1]) || (a[|a| - 1] == b[|b| - 1] && Subsequence(a[..|a| - 1], b[..|b| - 1]))
  }

  lemma SubsequenceExtends(a: seq<Claim>, b: seq<Claim>, c: Claim)
    requires Subsequence(a, b)
    ensures Subsequence(a, b + [c]) && Subsequence(a + [c], b + [c])
  {
    assert (b + [c])[..|b|] == b;
    assert (a + [c])[..|a|] == a;
  }

  lemma {:induction false} SubsequenceWithout(a: seq<Claim>, x: Claim, rest: seq<Claim>, b: seq<Claim>)
    requires Subsequence(a + [x] + rest, b)
    ensures Subsequence(a + rest, b)
    decreases |b|
  {
    var whole := a + [x] + rest;
    if a + rest != [] {
      var front := b[..|b| - 1];
      if Subsequence(whole, front) {
        SubsequenceWithout(a, x, rest, front);
      } else if rest == [] {
        assert whole[..|whole| - 1] == a && a + rest == a;
      } else {
        assert whole[..|whole| - 1] == a + [x] + rest[..|rest| - 1];
        SubsequenceWithout(a, x, rest[..|rest| - 1], front);
        assert (a + rest)[..|a + rest| - 1] == a + rest[..|rest| - 1];
      }
    }
  }

  ghost predicate OneActive(g: Gateway) {
    forall t, u | t in g.tasks && u in g.tasks && Active(g.tasks[t]) && Active(g.tasks[u]) :: t == u
  }

  /** What one start at a time guarantees between its steps. */
  ghost predicate Ordered(g: Gateway) {
    && Subsequence(g.handed + g.queue, g.arrived)
    && g.dropped == []
    && OneActive(g)
    && (g.starting || g.queue != [] ==> !NoActive(g))
    && (g.accepting && !g.starting ==> g.queue == [])
    && (forall t | t in g.tasks && g.tasks[t].Preparing? :: !g.accepting && g.queue == [])
    && (forall t | t in g.tasks && g.tasks[t].RollingBack? :: !g.starting)
  }

  lemma HandoffOrdered(g: Gateway, claim: Claim, max: nat)
    requires Ordered(g)
    ensures Ordered(Handoff(g, claim, max))
  {
    var done := g.handed + g.queue;
    SubsequenceExtends(done, g.arrived, claim);
    assert g.handed + (g.queue + [claim]) == done + [claim];
    if g.queue == [] {
      assert (g.handed + [claim]) + g.queue == done + [claim];
    }
    assert Handoff(g, claim, max).tasks == g.tasks;
    assert NoActive(Handoff(g, claim, max)) == NoActive(g);
  }

  lemma TaskMoves(g: Gateway, task: TaskId, phase: Phase)
    requires task in g.tasks && Active(g.tasks[task]) && OneActive(g)
    ensures OneActive(g.(tasks := g.tasks[task := phase]))
    ensures NoActive(g.(tasks := g.tasks[task := phase])) <==> !Active(phase)
    ensures forall t | t in g.tasks && t != task :: !Active(g.tasks[t])
  {
    var after := g.(tasks := g.tasks[task := phase]);
    if Active(phase) {
      assert task in after.tasks && Active(after.tasks[task]);
    }
  }

  lemma RollbackOrdered(g: Gateway, task: TaskId)
    requires task in g.tasks && Active(g.tasks[task]) && OneActive(g)
    requires Subsequence(g.handed + g.queue, g.arrived) && g.dropped == []
    requires !g.starting && (g.accepting ==> g.queue == [])
    ensures Ordered(RollbackTurn(g, task))
  {
    TaskMoves(g, task, Failed);
    TaskMoves(g, task, RollingBack);
    if g.queue != [] {
      assert g.handed + g.queue == g.handed + [g.queue[0]] + g.queue[1..];
      SubsequenceWithout(g.handed, g.queue[0], g.queue[1..], g.arrived);
      assert NoActive(RollbackTurn(g, task)) == NoActive(g.(tasks := g.tasks[task := RollingBack]));
    } else {
      assert NoActive(RollbackTurn(g, task)) == NoActive(g.(tasks := g.tasks[task := Failed]));
    }
  }

  lemma DrainOrdered(g: Gateway, task: TaskId)
    requires Ordered(g) && task in g.tasks && Active(g.tasks[task])
    ensures Ordered(DrainTurn(g, task))
  {
    if g.overflowed {
      RollbackOrdered(g.(accepting := false, starting := false), task);
    } else if g.queue == [] {
      TaskMoves(g, task, Succeeded);
      assert NoActive(DrainTurn(g, task)) == NoActive(g.(tasks := g.tasks[task := Succeeded]));
    } else {
      TaskMoves(g, task, Handling);
      assert (g.handed + [g.queue[0]]) + g.queue[1..] == g.handed + g.queue;
      assert NoActive(DrainTurn(g, task)) == NoActive(g.(tasks := g.tasks[task := Handling]));
    }
  }

  lemma RaisedOrdered(g: Gateway, task: TaskId)
    requires Ordered(g) && task in g.tasks && Active(g.tasks[task])
    ensures Ordered(StartRaised(g, task))
  {
    RollbackOrdered(g.(accepting := false, starting := false), task);
  }

  lemma PreparedOrdered(g: Gateway, task: TaskId)
    requires Ordered(g) && In(g, task, Preparing)
    ensures Ordered(Prepared(g, task))
  {
    TaskMoves(g, task, BringingUp);
    assert NoActive(Prepared(g, task)) == NoActive(g.(tasks := g.tasks[task := BringingUp]));
  }

  lemma StartOrdered(g: Gateway, task: TaskId, preparations: bool)
    requires Ordered(g) && NoActive(g) && task !in g.tasks
    ensures Ordered(StartCalled(g, task, preparations))
  {
    var after := StartCalled(g, task, preparations);
    assert g.queue == [] && g.dropped + g.queue == [];
    assert task in after.tasks && Active(after.tasks[task]);
  }

  lemma StopOrdered(g: Gateway)
    requires Ordered(g)
    ensures Ordered(g.(accepting := false, starting := false))
  {
    var after := g.(accepting := false, starting := false);
    assert after.tasks == g.tasks;
    assert NoActive(after) == NoActive(g);
  }

  lemma GatewayStepOrdered(g: Gateway, event: GatewayEvent)
    requires Ordered(g) && (event.Start? ==> NoActive(g))
    ensures Ordered(GatewayStep(g, event))
  {
    var after := GatewayStep(g, event);
    if after != g {
      match event
      case Start(task, preparations) =>
        StartOrdered(g, task, preparations);
        assert after == StartCalled(g, task, preparations);
      case PreparationsDone(task) => PreparedOrdered(g, task); assert after == Prepared(g, task);
      case Checkpoint(task) => RaisedOrdered(g, task); assert after == StartRaised(g, task);
      case Raised(task) => RaisedOrdered(g, task); assert after == StartRaised(g, task);
      case BroughtUp(task) => DrainOrdered(g, task); assert after == DrainTurn(g, task);
      case HandlingDone(task, ok) =>
        DrainOrdered(g, task);
        RaisedOrdered(g, task);
        assert after == if ok then DrainTurn(g, task) else StartRaised(g, task);
      case RollbackReleaseDone(task) => RollbackOrdered(g, task); assert after == RollbackTurn(g, task);
      case Stop => StopOrdered(g); assert after == g.(accepting := false, starting := false);
    }
  }

  lemma StepOrdered(s: System, event: Event, max: nat)
    requires Ordered(s.gateway) && MayHappen(s.gateway, event)
    ensures Ordered(Step(s, event, max).gateway)
  {
    var after := Step(s, event, max).gateway;
    match event
    case Claimed(_) => assert after == s.gateway;
    case OnLease(claim, _) =>
      HandoffOrdered(s.gateway, claim, max);
      assert after == s.gateway || after == Handoff(s.gateway, claim, max);
    case OnGateway(gatewayEvent) =>
      GatewayStepOrdered(s.gateway, gatewayEvent);
      assert after == GatewayStep(s.gateway, gatewayEvent);
  }

  lemma {:induction false} SequentialOrdered(events: seq<Event>, max: nat)
    requires Sequential(events, max)
    ensures Ordered(Run(events, max).gateway)
    decreases |events|
  {
    if events != [] {
      SequentialOrdered(events[..|events| - 1], max);
      StepOrdered(Run(events[..|events| - 1], max), events[|events| - 1], max);
    }
  }

  /**
    One start at a time, with stops at any time: processing follows the order of arrival, what is queued
    comes after all that was processed, and no claim is dropped.
   */
  lemma ProcessingFollowsArrival(events: seq<Event>, max: nat)
    requires Sequential(events, max)
    ensures var g := Run(events, max).gateway;
            Subsequence(g.handed + g.queue, g.arrived) && g.dropped == [] && ResetsFindNothing(events, max)
  {
    SequentialOrdered(events, max);
    NothingDroppedExactly(events, max);
  }

  const UP := STOPPED.(accepting := true, starting := true, tasks := map[0 := BringingUp])

  lemma ClaimSteps()
    ensures Step(System(STOPPED, map[]), OnGateway(Start(0, false)), 1) == System(UP, map[])
    ensures Step(System(UP, map[]), Claimed(7), 1) == System(UP, map[7 := Open])
    ensures Step(System(UP, map[7 := Open]), OnLease(7, Deliver(true)), 1) == System(UP, map[7 := Refreshing])
  {
    assert map[7 := Open][7 := Refreshing] == map[7 := Refreshing];
  }

  lemma ThreeSteps(e0: Event, e1: Event, e2: Event, max: nat)
    ensures Run([e0, e1, e2], max) == Step(Step(Step(System(STOPPED, map[]), e0, max), e1, max), e2, max)
  {
    RunStep([], e0, max);
    RunStep([e0], e1, max);
    RunStep([e0, e1], e2, max);
    assert [] + [e0] == [e0] && [e0] + [e1] == [e0, e1] && [e0, e1] + [e2] == [e0, e1, e2];
  }

  /** Two starts that overlap can drop a claim that the first one queued. */
  lemma OverlappingStartsDrop()
    ensures var events := [OnGateway(Start(0, false)), Claimed(7), OnLease(7, Deliver(true)),
                           OnLease(7, Refreshed(true)),
                           OnGateway(Start(1, false))];
            Run(events, 1).gateway.dropped == [7]
  {
    var arriving := [OnGateway(Start(0, false)), Claimed(7), OnLease(7, Deliver(true))];
    var e3, e4 := OnLease(7, Refreshed(true)), OnGateway(Start(1, false));
    ThreeSteps(OnGateway(Start(0, false)), Claimed(7), OnLease(7, Deliver(true)), 1);
    ClaimSteps();
    RunStep(arriving, e3, 1);
    RunStep(arriving + [e3], e4, 1);
    var queued := Run(arriving + [e3], 1).gateway;
    assert queued == Handoff(UP, 7, 1);
    assert StartCalled(queued, 1, false).dropped == [7];
    assert arriving + [e3] + [e4]
           == [OnGateway(Start(0, false)), Claimed(7), OnLease(7, Deliver(true)),
               OnLease(7, Refreshed(true)), OnGateway(Start(1, false))];
  }

  lemma RunStep(events: seq<Event>, event: Event, max: nat)
    ensures Run(events + [event], max) == Step(Run(events, max), event, max)
  {
    assert (events + [event])[..|events|] == events;
  }
}
