/**
  What every run of the effect executor keeps: at most one native invocation, honest
  answers, a frozen terminal receipt, one binding commit and a bounded retry.
 */
module EffectSafety {
  import opened Wrappers
  import opened EffectReceipts
  import opened EffectExecutor

  // ---- The invariant: what holds of the shared state, and what each call knows about it ----

  ghost predicate OutcomeReported(sh: Shared, outcome: Outcome) {
    && (outcome.Failed? ==> outcome.error in sh.reportedFailures)
    && (outcome.Succeeded? || outcome.Partial? ==> outcome.value.reference in sh.reportedReferences)
  }

  ghost predicate SharedInv(sh: Shared) {
    && sh.invocations <= 1
    && sh.bindingCommits <= 1
    && (sh.invocations > 0 ==> sh.fenceHolder.Some?)
    && (sh.fenceHolder.Some? ==> PastFence(sh))
    && (sh.slot.Some? ==> ReceiptInv(sh, sh.slot.value))
    && (sh.bindingCommits > 0 <==> Bound(sh))
  }

  /** The durable phase has left RESERVED. */
  ghost predicate PastFence(sh: Shared) {
    sh.slot.Some? && !sh.slot.value.phase.Reserved?
  }

  /** The receipt is a terminal workflow success. */
  ghost predicate Bound(sh: Shared) {
    && sh.slot.Some? && sh.slot.value.phase.Terminal? && sh.slot.value.category.WorkflowCategory?
    && sh.slot.value.outcome.Some? && sh.slot.value.outcome.value.Succeeded?
  }

  ghost predicate ReceiptInv(sh: Shared, r: Receipt) {
    && ValidReceipt(r)
    && !r.category.GatewayCategory?
    && (r.category.WorkflowCategory? <==> r.bindingGeneration.Some?)
    && (r.phase.Terminal? ==> r.outcome.Some?)
    && (r.phase.Started? || r.phase.ResultKnown? ==> sh.fenceHolder.Some?)
    && (r.outcome.Some? && sh.fenceHolder.Some? ==> OutcomeReported(sh, r.outcome.value))
    && (r.phase.Terminal? && sh.fenceHolder.None? ==> r.outcome.value.Failed?)
    && (r.phase.Terminal? && r.category.WorkflowCategory? && r.outcome.value.Succeeded? ==>
          r.outcome.value.value.bindingGeneration == Some(r.bindingGeneration.value + 1))
  }

  ghost predicate Matches(sh: Shared, args: CallArgs) {
    && sh.slot.Some?
    && sh.slot.value.payload == args.payload
    && sh.slot.value.category == CategoryOf(args)
    && ValidArgs(args)
  }

  /** The program points of a call before it has passed the fence. */
  predicate BeforeFence(pc: Pc) {
    pc.AtPreflight? || pc.AtRecordPreflight? || pc.AtPreflightCancelRead? || pc.AtPreflightErrorRead?
    || pc.AtFence? || pc.AtFenceCancelRead?
  }

  /** The program points that only the call that started `invoke` visits. */
  predicate AfterInvoke(pc: Pc) { pc.AtInvoke? || pc.AtRecordKnown? || pc.AtRecordRead? }

  predicate Reconciling(pc: Pc) {
    pc.AtReconcile? || pc.AtRecordReconciled? || pc.AtReconciledRead? || pc.AtReread?
  }

  predicate Committing(pc: Pc) { pc.AtCommit? || pc.AtCommitFence? || pc.AtCommitRead? }

  predicate HoldsKnown(pc: Pc) {
    pc.AtRecordKnown? || pc.AtRecordRead? || pc.AtRecordReconciled? || pc.AtReconciledRead?
  }

  ghost predicate AnswerInv(sh: Shared, call: Call, answer: Answer) {
    answer.Returned? ==>
      var o := answer.outcome;
      && (call.invoked && o.Failed? ==> o.error in sh.reportedFailures)
      && (o.Succeeded? || o.Partial? ==> o.value.reference in sh.reportedReferences)
      && (call.args.WorkflowCall? && o.Succeeded? ==> sh.bindingCommits > 0)
  }

  ghost predicate KnownInv(sh: Shared, args: CallArgs, known: Outcome) {
    KnownFits(args, known) && OutcomeReported(sh, known)
  }

  ghost predicate CallInv(sh: Shared, id: CallId, call: Call) {
    && call.retries <= 1
    && (call.retries == 1 ==> PastFence(sh) && !BeforeFence(call.pc) && !call.invoked)
    && (!call.pc.AtReserve? && !call.pc.Done? && !call.pc.Crashed? ==> Matches(sh, call.args))
    && (call.invoked ==> sh.fenceHolder == Some(id) && Matches(sh, call.args) && call.retries == 0)
    && (call.invoked ==> !call.pc.AtReserve? && !BeforeFence(call.pc) && !Reconciling(call.pc))
    && (AfterInvoke(call.pc) ==> call.invoked)
    && (Reconciling(call.pc) || Committing(call.pc) || call.pc.AtPersistUnknown? ==>
        PastFence(sh) && sh.fenceHolder.Some?)
    && (call.pc.AtPersistUnknown? && call.pc.reconciling ==> !call.invoked)
    && (call.pc.AtReconcile? || call.pc.AtRecordReconciled? || call.pc.AtReconciledRead? ==> call.args.hasReconcile)
    && (call.pc.AtReread? || Committing(call.pc) ==> call.args.WorkflowCall?)
    && (HoldsKnown(call.pc) ==> KnownInv(sh, call.args, call.pc.known))
    && (Committing(call.pc) ==> call.pc.created.reference in sh.reportedReferences)
    && (call.pc.Done? ==> AnswerInv(sh, call, call.pc.answer))
  }

  /** What one step of any call may do to the shared state. */
  ghost predicate Evolves(a: Shared, b: Shared) {
    && Advances(a.slot, b.slot)
    && a.generation <= b.generation
    && (a.fenceHolder.Some? ==> b.fenceHolder == a.fenceHolder)
    && a.invocations <= b.invocations
    && a.bindingCommits <= b.bindingCommits
    && a.reportedFailures <= b.reportedFailures
    && a.reportedReferences <= b.reportedReferences
  }

  ghost predicate SystemInv(s: System) {
    && SharedInv(s.shared)
    && forall id | id in s.calls :: CallInv(s.shared, id, s.calls[id])
  }

  // ---- One step keeps the invariant ----

  ghost predicate KeepsInv(sh: Shared, id: CallId, after: (Shared, Call)) {
    SharedInv(after.0) && CallInv(after.0, id, after.1) && Evolves(sh, after.0)
  }

  /** A call's knowledge survives the steps of the others. */
  lemma KnowledgeIsStable(a: Shared, b: Shared, id: CallId, call: Call)
    requires SharedInv(a) && SharedInv(b) && Evolves(a, b) && CallInv(a, id, call)
    ensures CallInv(b, id, call)
  {
  }

  /** Entering `_commit_known_workflow` with the stored receipt of a workflow. */
  lemma CommitKnownKeeps(sh: Shared, id: CallId, call: Call, receipt: Receipt)
    requires SharedInv(sh) && sh.slot == Some(receipt) && sh.fenceHolder.Some?
    requires Matches(sh, call.args) && call.args.WorkflowCall? && call.retries <= 1
    requires call.retries == 1 ==> !call.invoked
    requires call.invoked ==> sh.fenceHolder == Some(id)
    ensures CallInv(sh, id, call.(pc := CommitKnown(call.args, receipt)))
  {
  }

  lemma AfterReserveKeeps(sh: Shared, id: CallId, call: Call, receipt: Receipt)
    requires SharedInv(sh) && CallInv(sh, id, call) && call.pc.AtReserve?
    requires sh.slot == Some(receipt) && Matches(sh, call.args)
    ensures CallInv(sh, id, call.(pc := AfterReserve(call.args, receipt)))
  {
    if receipt.phase.ResultKnown? {
      CommitKnownKeeps(sh, id, call, receipt);
    }
  }

  lemma ReserveKeeps(sh: Shared, id: CallId, call: Call, fault: Fault)
    requires SharedInv(sh) && CallInv(sh, id, call) && call.pc.AtReserve?
    ensures KeepsInv(sh, id, StepReserve(sh, call, fault))
  {
    if ValidArgs(call.args) {
      var generation: Option<int> := if call.args.WorkflowCall? then Some(sh.generation) else None;
      var result := ReserveReceipt(sh.slot, call.args.payload, CategoryOf(call.args), PhaseIdOf(call.args), generation);
      var (slot, reply) := Perform(sh.slot, result, fault);
      var after := sh.(slot := slot);
      assert SharedInv(after) && Evolves(sh, after);
      if reply.Ok? {
        KnowledgeIsStable(sh, after, id, call);
        AfterReserveKeeps(after, id, call, reply.value);
      }
    }
  }

  lemma RecordPreflightKeeps(sh: Shared, id: CallId, call: Call, error: ActionError, fault: Fault)
    requires SharedInv(sh) && CallInv(sh, id, call) && call.pc == AtRecordPreflight(error)
    ensures KeepsInv(sh, id, StepRecordPreflight(sh, call, error, fault))
  {
  }

  lemma FenceKeepsShared(sh: Shared, id: CallId, call: Call, fault: Fault)
    requires SharedInv(sh) && CallInv(sh, id, call) && call.pc.AtFence?
    ensures var after := StepFence(sh, id, call, fault).0; SharedInv(after) && Evolves(sh, after)
  {
  }

  lemma FenceKeeps(sh: Shared, id: CallId, call: Call, fault: Fault)
    requires SharedInv(sh) && CallInv(sh, id, call) && call.pc.AtFence?
    ensures KeepsInv(sh, id, StepFence(sh, id, call, fault))
  {
    FenceKeepsShared(sh, id, call, fault);
  }

  lemma InvokeKeeps(sh: Shared, id: CallId, call: Call, native: NativeResult)
    requires SharedInv(sh) && CallInv(sh, id, call)
    ensures call.pc.AtInvoke? ==> KeepsInv(sh, id, StepInvoke(sh, call, native))
  {
  }

  lemma ReconcileKeeps(sh: Shared, id: CallId, call: Call, native: NativeResult)
    requires SharedInv(sh) && CallInv(sh, id, call)
    ensures call.pc.AtReconcile? ==> KeepsInv(sh, id, StepReconcile(sh, call, native))
  {
  }

  /** Recording an outcome that was natively reported, or that is unknown. */
  lemma RecordingKeepsShared(sh: Shared, args: CallArgs, phase: Phase, outcome: Outcome, fault: Fault)
    requires SharedInv(sh) && Matches(sh, args) && PastFence(sh) && sh.fenceHolder.Some?
    requires OutcomeReported(sh, outcome)
    ensures var after := sh.(slot := Perform(sh.slot, RecordReceipt(sh.slot, args.payload, phase, outcome), fault).0);
            SharedInv(after) && Evolves(sh, after)
  {
  }

  lemma RecordKnownKeeps(sh: Shared, id: CallId, call: Call, known: Outcome, fault: Fault)
    requires SharedInv(sh) && CallInv(sh, id, call) && call.pc == AtRecordKnown(known)
    ensures KeepsInv(sh, id, StepRecordKnown(sh, call, known, fault))
  {
    var phase := RecordedPhase(call.args, known);
    RecordingKeepsShared(sh, call.args, phase, known, fault);
    var (slot, reply) := Perform(sh.slot, RecordReceipt(sh.slot, call.args.payload, phase, known), fault);
    var after := sh.(slot := slot);
    KnowledgeIsStable(sh, after, id, call);
    if reply.Ok? && phase.ResultKnown? {
      CommitKnownKeeps(after, id, call, reply.value);
    }
  }

  lemma RecordReconciledKeeps(sh: Shared, id: CallId, call: Call, known: Outcome, fault: Fault)
    requires SharedInv(sh) && CallInv(sh, id, call) && call.pc == AtRecordReconciled(known)
    ensures KeepsInv(sh, id, StepRecordReconciled(sh, call, known, fault))
  {
    var phase := RecordedPhase(call.args, known);
    RecordingKeepsShared(sh, call.args, phase, known, fault);
    var after := sh.(slot := Perform(sh.slot, RecordReceipt(sh.slot, call.args.payload, phase, known), fault).0);
    KnowledgeIsStable(sh, after, id, call);
  }

  lemma PersistUnknownKeeps(sh: Shared, id: CallId, call: Call, reconciling: bool, fault: Fault)
    requires SharedInv(sh) && CallInv(sh, id, call) && call.pc == AtPersistUnknown(reconciling)
    ensures KeepsInv(sh, id, StepPersistUnknown(sh, call, reconciling, fault))
  {
    var unknown := Unknown(NativeOutcomeUnknown);
    RecordingKeepsShared(sh, call.args, Started, unknown, fault);
    var after := sh.(slot := Perform(sh.slot, RecordReceipt(sh.slot, call.args.payload, Started, unknown), fault).0);
    KnowledgeIsStable(sh, after, id, call);
  }

  lemma CommitKeeps(sh: Shared, id: CallId, call: Call, created: EffectValue, fault: Fault, routeConflict: bool)
    requires SharedInv(sh) && CallInv(sh, id, call) && call.pc == AtCommit(created)
    ensures KeepsInv(sh, id, StepCommit(sh, call, created, fault, routeConflict))
  {
  }

  lemma ReadKeeps(sh: Shared, id: CallId, call: Call, ok: bool)
    requires SharedInv(sh) && CallInv(sh, id, call)
    ensures CallInv(sh, id, call.(pc := StepRead(sh, call, ok)))
  {
    if HoldsKnown(call.pc) {
      ReadAfterRecordKeeps(sh, id, call, ok);
    } else {
      ReadElsewhereKeeps(sh, id, call, ok);
    }
  }

  /** Reading the receipt back after a native outcome was recorded. */
  lemma ReadAfterRecordKeeps(sh: Shared, id: CallId, call: Call, ok: bool)
    requires SharedInv(sh) && CallInv(sh, id, call) && HoldsKnown(call.pc)
    ensures CallInv(sh, id, call.(pc := StepRead(sh, call, ok)))
  {
    if sh.slot.Some? && sh.slot.value.phase.ResultKnown? && call.args.WorkflowCall? && Matches(sh, call.args) {
      CommitKnownKeeps(sh, id, call, sh.slot.value);
    }
  }

  lemma ReadElsewhereKeeps(sh: Shared, id: CallId, call: Call, ok: bool)
    requires SharedInv(sh) && CallInv(sh, id, call) && !HoldsKnown(call.pc)
    ensures CallInv(sh, id, call.(pc := StepRead(sh, call, ok)))
  {
    if sh.slot.Some? && sh.slot.value.phase.ResultKnown? && call.args.WorkflowCall? && Matches(sh, call.args) {
      CommitKnownKeeps(sh, id, call, sh.slot.value);
    }
  }

  lemma StoreKeeps(sh: Shared, id: CallId, call: Call, fault: Fault, routeConflict: bool)
    requires SharedInv(sh) && CallInv(sh, id, call)
    ensures KeepsInv(sh, id, StepStore(sh, id, call, fault, routeConflict))
  {
    var after := StepStore(sh, id, call, fault, routeConflict);
    assert KeepsInv(sh, id, after) by {
      match call.pc
      case AtReserve => ReserveKeeps(sh, id, call, fault); assert after == StepReserve(sh, call, fault);
      case AtRecordPreflight(error) =>
        RecordPreflightKeeps(sh, id, call, error, fault); assert after == StepRecordPreflight(sh, call, error, fault);
      case AtFence => FenceKeeps(sh, id, call, fault); assert after == StepFence(sh, id, call, fault);
      case AtRecordKnown(known) =>
        RecordKnownKeeps(sh, id, call, known, fault); assert after == StepRecordKnown(sh, call, known, fault);
      case AtPersistUnknown(reconciling) =>
        PersistUnknownKeeps(sh, id, call, reconciling, fault);
        assert after == StepPersistUnknown(sh, call, reconciling, fault);
      case AtRecordReconciled(known) =>
        RecordReconciledKeeps(sh, id, call, known, fault); assert after == StepRecordReconciled(sh, call, known, fault);
      case AtCommit(created) =>
        CommitKeeps(sh, id, call, created, fault, routeConflict);
        assert after == StepCommit(sh, call, created, fault, routeConflict);
      case _ => assert after == (sh, call);
    }
  }

  lemma CallbackKeeps(sh: Shared, id: CallId, call: Call, choice: Choice)
    requires SharedInv(sh) && CallInv(sh, id, call)
    ensures call.pc.AtPreflight? ==> CallInv(sh, id, call.(pc := StepPreflight(call, choice)))
    ensures call.pc.AtCommitFence? ==> CallInv(sh, id, call.(pc := StepCommitFence(call, call.pc.created, choice)))
  {
  }

  lemma StepKeeps(sh: Shared, id: CallId, call: Call, choice: Choice)
    requires SharedInv(sh) && CallInv(sh, id, call)
    ensures KeepsInv(sh, id, Step(sh, id, call, choice))
  {
    var after := Step(sh, id, call, choice);
    match choice
    case StoreReplies(fault, routeConflict) =>
      StoreKeeps(sh, id, call, fault, routeConflict);
      assert after == StepStore(sh, id, call, fault, routeConflict);
    case ReadReplies(ok) =>
      ReadKeeps(sh, id, call, ok);
      StaysPut(sh, id, call.(pc := StepRead(sh, call, ok)));
    case NativeReplies(native) =>
      InvokeKeeps(sh, id, call, native);
      ReconcileKeeps(sh, id, call, native);
      StaysPut(sh, id, call);
    case _ =>
      CallbackKeeps(sh, id, call, choice);
      StaysPut(sh, id, after.1);
  }

  lemma StaysPut(sh: Shared, id: CallId, call: Call)
    requires SharedInv(sh) && CallInv(sh, id, call)
    ensures KeepsInv(sh, id, (sh, call))
  {
  }

  // ---- Every run keeps the invariant ----

  lemma ApplyKeeps(s: System, event: Event)
    requires SystemInv(s)
    ensures SystemInv(Apply(s, event)) && Evolves(s.shared, Apply(s, event).shared)
  {
    match event
    case Advance(id, choice) =>
      if id in s.calls {
        StepKeeps(s.shared, id, s.calls[id], choice);
        var shared := Step(s.shared, id, s.calls[id], choice).0;
        forall other | other in s.calls && other != id ensures CallInv(shared, other, s.calls[other]) {
          KnowledgeIsStable(s.shared, shared, other, s.calls[other]);
        }
      }
    case Crash(id) =>
    case Rebind =>
      var shared := s.shared.(generation := s.shared.generation + 1);
      forall id | id in s.calls ensures CallInv(shared, id, s.calls[id]) {
        KnowledgeIsStable(s.shared, shared, id, s.calls[id]);
      }
  }

  lemma {:induction false} RunKeeps(s: System, events: seq<Event>)
    requires SystemInv(s)
    ensures SystemInv(Run(s, events)) && Evolves(s.shared, Run(s, events).shared)
    ensures Run(s, events).calls.Keys == s.calls.Keys
    decreases |events|
  {
    if events != [] {
      ApplyKeeps(s, events[0]);
      RunKeeps(Apply(s, events[0]), events[1..]);
    }
  }

  /** What an outside observer can reach from an empty store with any calls. */
  ghost predicate Reachable(s: System) {
    exists generation: nat, args: map<CallId, CallArgs>, events: seq<Event> ::
      s == Run(Initial(generation, args), events)
  }

  lemma ReachableKeeps(s: System)
    requires Reachable(s)
    ensures SystemInv(s)
  {
    var generation: nat, args: map<CallId, CallArgs>, events :| s == Run(Initial(generation, args), events);
    RunKeeps(Initial(generation, args), events);
  }

  // ---- Main results ----

  /** Over every run, `invoke` starts at most once in total, only behind an acquired fence, and in one call only. */
  lemma AtMostOneInvocation(s: System)
    requires Reachable(s)
    ensures s.shared.invocations <= 1
    ensures s.shared.invocations == 1 ==> s.shared.fenceHolder.Some? && PastFence(s.shared)
    ensures forall a, b | a in s.calls && b in s.calls && s.calls[a].invoked && s.calls[b].invoked :: a == b
    ensures forall a | a in s.calls && s.calls[a].invoked :: s.shared.fenceHolder == Some(a)
  {
    ReachableKeeps(s);
    forall a | a in s.calls && s.calls[a].invoked ensures s.shared.fenceHolder == Some(a) {
      assert CallInv(s.shared, a, s.calls[a]);
    }
  }

  /**
    A call that reached `invoke` answers Failed only with an error that `invoke` or `reconcile`
    reported, and no call ever answers with a reference that was not natively reported.
   */
  lemma HonestAnswers(s: System, id: CallId)
    requires Reachable(s) && id in s.calls
    requires s.calls[id].pc.Done? && s.calls[id].pc.answer.Returned?
    ensures var outcome := s.calls[id].pc.answer.outcome;
            && (s.calls[id].invoked && outcome.Failed? ==> outcome.error in s.shared.reportedFailures)
            && (outcome.Succeeded? || outcome.Partial? ==> outcome.value.reference in s.shared.reportedReferences)
  {
    ReachableKeeps(s);
    assert CallInv(s.shared, id, s.calls[id]);
  }

  /**
    The binding of a workflow is written at most once, and a workflow that answers Succeeded has been
    bound under the generation captured when it was reserved.
   */
  lemma SuccessfulWorkflowIsBoundOnce(s: System, id: CallId)
    requires Reachable(s) && id in s.calls && s.calls[id].args.WorkflowCall?
    ensures s.shared.bindingCommits <= 1
    ensures s.calls[id].pc.Done? && s.calls[id].pc.answer.Returned? && s.calls[id].pc.answer.outcome.Succeeded? ==>
              && s.shared.bindingCommits == 1
              && s.shared.slot.Some? && s.shared.slot.value.bindingGeneration.Some?
              && s.shared.slot.value.outcome.Some? && s.shared.slot.value.outcome.value.Succeeded?
              && s.shared.slot.value.outcome.value.value.bindingGeneration
                 == Some(s.shared.slot.value.bindingGeneration.value + 1)
  {
    ReachableKeeps(s);
    assert CallInv(s.shared, id, s.calls[id]);
  }

  /** A terminal receipt never changes again. */
  lemma TerminalReceiptIsFrozen(s: System, events: seq<Event>)
    requires Reachable(s) && IsTerminal(s.shared.slot)
    ensures Run(s, events).shared.slot == s.shared.slot
  {
    ReachableKeeps(s);
    RunKeeps(s, events);
  }

  /** Whether the receipt is one of this very action. */
  predicate SameAction(receipt: Receipt, args: CallArgs) {
    && receipt.payload == args.payload && receipt.category == CategoryOf(args)
    && receipt.nativePhaseId == Some(PhaseIdOf(args))
  }

  /**
    The answer of a replay of a terminal receipt, by the fault of the one store call that it makes: without
    a fault it is the stored outcome, or a conflict for another action's receipt.
   */
  function ReplayAnswer(receipt: Receipt, args: CallArgs, fault: Fault): Answer
    requires receipt.outcome.Some?
  {
    if !ValidArgs(args) then Escaped(OtherExn)
    else
      match fault
      case NoFault => if SameAction(receipt, args) then Returned(receipt.outcome.value) else FailedWith(ConflictCode)
      case _ =>
        match fault.exn
        case Cancelled => Escaped(Cancelled)
        case ConflictExn => FailedWith(ConflictCode)
        case CapacityExn => FailedWith(CapacityExhausted)
        case StaleExn => FailedWith(StaleRuntime)
        case _ => FailedWith(StoreFailure)
  }

  ghost predicate ReplayPc(receipt: Receipt, args: CallArgs, pc: Pc)
    requires receipt.outcome.Some?
  {
    pc.AtReserve? || pc.Crashed? || (pc.Done? && exists fault :: pc.answer == ReplayAnswer(receipt, args, fault))
  }

  /**
    Once the receipt is terminal, a call that has not begun runs none of preflight, invoke and
    reconcile, whatever happens: it is unstarted, crashed, or has answered from the receipt.
   */
  lemma ReplayRunsNoCallback(s: System, id: CallId, events: seq<Event>)
    requires Reachable(s) && IsTerminal(s.shared.slot) && s.shared.slot.value.outcome.Some?
    requires id in s.calls && s.calls[id].pc.AtReserve?
    ensures id in Run(s, events).calls
    ensures var call := Run(s, events).calls[id];
            ReplayPc(s.shared.slot.value, s.calls[id].args, call.pc) && call.invoked == s.calls[id].invoked
  {
    ReachableKeeps(s);
    ReplayRuns(s, id, events);
  }

  /**
    The one step of a replay gives the answer of its fault, so a replay of the same action without a fault returns
    what is stored.
   */
  lemma ReplayAnswersAtOnce(sh: Shared, id: CallId, call: Call, fault: Fault, routeConflict: bool)
    requires SharedInv(sh) && IsTerminal(sh.slot) && call.pc.AtReserve?
    ensures Step(sh, id, call, StoreReplies(fault, routeConflict))
            == (sh, call.(pc := Done(ReplayAnswer(sh.slot.value, call.args, fault))))
  {
    assert Step(sh, id, call, StoreReplies(fault, routeConflict)) == StepReserve(sh, call, fault);
  }

  lemma ReplayStep(sh: Shared, id: CallId, call: Call, choice: Choice)
    requires SharedInv(sh) && IsTerminal(sh.slot) && ReplayPc(sh.slot.value, call.args, call.pc)
    ensures var after := Step(sh, id, call, choice);
            && ReplayPc(sh.slot.value, call.args, after.1.pc)
            && after.1.args == call.args && after.1.invoked == call.invoked
  {
    if call.pc.AtReserve? && choice.StoreReplies? {
      ReplayAnswersAtOnce(sh, id, call, choice.fault, choice.routeConflict);
    } else {
      assert Step(sh, id, call, choice).1 == call;
    }
  }

  lemma {:induction false} ReplayRuns(s: System, id: CallId, events: seq<Event>)
    requires SystemInv(s) && IsTerminal(s.shared.slot) && id in s.calls
    requires ReplayPc(s.shared.slot.value, s.calls[id].args, s.calls[id].pc)
    ensures id in Run(s, events).calls
    ensures Run(s, events).calls[id].invoked == s.calls[id].invoked
    ensures ReplayPc(s.shared.slot.value, s.calls[id].args, Run(s, events).calls[id].pc)
    decreases |events|
  {
    if events != [] {
      var event := events[0];
      var next := Apply(s, event);
      ApplyKeeps(s, event);
      assert next.shared.slot == s.shared.slot;
      assert id in next.calls && next.calls[id].invoked == s.calls[id].invoked
          && next.calls[id].args == s.calls[id].args
             && ReplayPc(s.shared.slot.value, s.calls[id].args, next.calls[id].pc) by {
        if event.Advance? && event.id == id {
          ReplayStep(s.shared, id, s.calls[id], event.choice);
        }
      }
      ReplayRuns(next, id, events[1..]);
    }
  }

  /** How far a call is from its answer; losing the fence race costs the one retry. */
  function Distance(call: Call): nat {
    (if call.retries == 0 then 20 else 0) +
    match call.pc
    case AtReserve => 12
    case AtPreflight => 11
    case AtRecordPreflight(_) => 10
    case AtPreflightCancelRead => 9
    case AtPreflightErrorRead => 9
    case AtFence => 10
    case AtFenceCancelRead => 9
    case AtInvoke => 9
    case AtRecordKnown(_) => 8
    case AtRecordRead(_, _) => 7
    case AtReconcile => 9
    case AtRecordReconciled(_) => 8
    case AtReconciledRead(_, _) => 7
    case AtPersistUnknown(_) => 7
    case AtReread => 6
    case AtCommitFence(_) => 5
    case AtCommit(_) => 4
    case AtCommitRead(_, _) => 3
    case Done(_) => 0
    case Crashed => 0
  }

  /**
    The self-recursion after a lost fence race is at most one level deep, and every effective step brings the answer
    nearer, which 32 steps reach.
   */
  lemma RetryIsBounded(s: System, id: CallId, choice: Choice)
    requires Reachable(s) && id in s.calls
    ensures s.calls[id].retries <= 1 && Distance(s.calls[id]) <= 32
    ensures var after := Step(s.shared, id, s.calls[id], choice);
            after == (s.shared, s.calls[id]) || Distance(after.1) < Distance(s.calls[id])
  {
    ReachableKeeps(s);
    assert CallInv(s.shared, id, s.calls[id]);
    DistanceFalls(s.shared, id, s.calls[id], choice);
  }

  ghost predicate Nearer(sh: Shared, call: Call, after: (Shared, Call)) {
    after == (sh, call) || Distance(after.1) < Distance(call)
  }

  lemma DistanceFalls(sh: Shared, id: CallId, call: Call, choice: Choice)
    requires SharedInv(sh) && CallInv(sh, id, call)
    ensures Nearer(sh, call, Step(sh, id, call, choice))
  {
    match choice
    case StoreReplies(fault, routeConflict) => StoreDistanceFalls(sh, id, call, fault, routeConflict);
    case ReadReplies(ok) => ReadDistanceFalls(sh, id, call, ok);
    case _ =>
  }

  lemma FenceDistanceFalls(sh: Shared, id: CallId, call: Call, fault: Fault)
    requires SharedInv(sh) && CallInv(sh, id, call)
    ensures call.pc.AtReserve? ==> Nearer(sh, call, StepReserve(sh, call, fault))
    ensures call.pc.AtFence? ==> Nearer(sh, call, StepFence(sh, id, call, fault))
  {
  }

  lemma RecordDistanceFalls(sh: Shared, call: Call, known: Outcome, fault: Fault)
    ensures call.pc == AtRecordKnown(known) ==> Nearer(sh, call, StepRecordKnown(sh, call, known, fault))
    ensures call.pc == AtRecordReconciled(known) ==> Nearer(sh, call, StepRecordReconciled(sh, call, known, fault))
  {
  }

  lemma UnknownDistanceFalls(sh: Shared, call: Call, reconciling: bool, error: ActionError, fault: Fault)
    ensures call.pc == AtRecordPreflight(error) ==> Nearer(sh, call, StepRecordPreflight(sh, call, error, fault))
    ensures call.pc == AtPersistUnknown(reconciling) ==>
        Nearer(sh, call, StepPersistUnknown(sh, call, reconciling, fault))
  {
  }

  lemma CommitDistanceFalls(sh: Shared, call: Call, created: EffectValue, fault: Fault, routeConflict: bool)
    ensures call.pc == AtCommit(created) ==> Nearer(sh, call, StepCommit(sh, call, created, fault, routeConflict))
  {
  }

  lemma StoreDistanceFalls(sh: Shared, id: CallId, call: Call, fault: Fault, routeConflict: bool)
    requires SharedInv(sh) && CallInv(sh, id, call)
    ensures Nearer(sh, call, StepStore(sh, id, call, fault, routeConflict))
  {
    var after := StepStore(sh, id, call, fault, routeConflict);
    var failure := ActionError(NativeRejected, None);
    FenceDistanceFalls(sh, id, call, fault);
    match call.pc
    case AtReserve => assert after == StepReserve(sh, call, fault);
    case AtFence => assert after == StepFence(sh, id, call, fault);
    case AtRecordPreflight(error) =>
      UnknownDistanceFalls(sh, call, false, error, fault);
      assert after == StepRecordPreflight(sh, call, error, fault);
    case AtRecordKnown(known) =>
      RecordDistanceFalls(sh, call, known, fault);
      assert after == StepRecordKnown(sh, call, known, fault);
    case AtPersistUnknown(reconciling) =>
      UnknownDistanceFalls(sh, call, reconciling, failure, fault);
      assert after == StepPersistUnknown(sh, call, reconciling, fault);
    case AtRecordReconciled(known) =>
      RecordDistanceFalls(sh, call, known, fault);
      assert after == StepRecordReconciled(sh, call, known, fault);
    case AtCommit(created) =>
      CommitDistanceFalls(sh, call, created, fault, routeConflict);
      assert after == StepCommit(sh, call, created, fault, routeConflict);
    case _ =>
  }

  lemma ReadDistanceFalls(sh: Shared, id: CallId, call: Call, ok: bool)
    ensures var pc := StepRead(sh, call, ok);
            pc == call.pc || Distance(call.(pc := pc)) < Distance(call)
  {
  }
}
