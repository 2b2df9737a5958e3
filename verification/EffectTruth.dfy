/**
  Creations and truthful reconcilers.  If `reconcile` reports nothing but the resource that `invoke`
  created, a creation is lost in one way only: the creating call comes to record it when another call has
  already ended the workflow with a Partial outcome, and sees that receipt.
 */
module EffectTruth {
  import opened Wrappers
  import opened EffectReceipts
  import opened EffectExecutor
  import opened EffectSafety
  import opened EffectCreation

  type Reference = Option<StableReference>

  // ---- Truthful runs ----

  /** A report of `reconcile` is the created resource, and so is a success of the creator's own `invoke`. */
  predicate SpeaksTruly(s: System, id: CallId, ref: Reference, event: Event) {
    event.Advance? && event.id in s.calls && event.choice.NativeReplies? && event.choice.native.Reports? ==>
      var outcome := event.choice.native.outcome;
      && (s.calls[event.id].pc.AtReconcile? ==> outcome.Succeeded? && outcome.value.reference == ref)
      && (event.id == id && s.calls[id].pc.AtInvoke? && outcome.Succeeded? ==> outcome.value.reference == ref)
  }

  predicate Truthful(s: System, id: CallId, ref: Reference, events: seq<Event>)
    decreases |events|
  {
    events != [] ==> SpeaksTruly(s, id, ref, events[0]) && Truthful(Apply(s, events[0]), id, ref, events[1..])
  }

  predicate IsPartialReceipt(slot: Option<Receipt>) {
    IsTerminal(slot) && slot.value.outcome.Some? && slot.value.outcome.value.Partial?
  }

  /** The creator's own record returns a receipt that another call has ended with a Partial outcome. */
  predicate FindsPartial(s: System, id: CallId, event: Event) {
    && event.Advance? && event.id == id && id in s.calls && s.calls[id].created.Some? && s.calls[id].pc.AtRecordKnown?
    && event.choice.StoreReplies? && event.choice.fault.NoFault? && IsPartialReceipt(s.shared.slot)
  }

  predicate RecordsIntoPartial(s: System, id: CallId, events: seq<Event>)
    decreases |events|
  {
    events != [] && (FindsPartial(s, id, events[0]) || RecordsIntoPartial(Apply(s, events[0]), id, events[1..]))
  }

  // ---- What the receipt and the creator know ----

  /** Past the fence, every known result in the receipt is the created resource. */
  ghost predicate SlotNames(slot: Option<Receipt>, ref: Reference) {
    && slot.Some? && !slot.value.phase.Reserved? && slot.value.category.WorkflowCategory?
    && (slot.value.phase.ResultKnown? ==>
          slot.value.outcome.Some? && slot.value.outcome.value.Succeeded?
              && slot.value.outcome.value.value.reference == ref)
    && (slot.value.phase.Terminal? ==> slot.value.outcome.Some? && CarriesReference(slot.value.outcome.value, ref))
  }

  ghost predicate Names(outcome: Outcome, ref: Reference) { outcome.Succeeded? && outcome.value.reference == ref }

  /** The creator holds its creation, unless it is lost. */
  ghost predicate OwnInv(sh: Shared, call: Call, ref: Reference, lost: bool) {
    && (lost ==> call.created.Some? && call.pc == Done(Escaped(OtherExn)))
    && (call.pc.AtInvoke? ==> SlotNames(sh.slot, ref) && call.created.None?)
    && (call.created.Some? ==>
          && call.created.value.reference == ref && call.invoked && call.args.WorkflowCall? && SlotNames(sh.slot, ref)
          && (match call.pc
              case AtRecordKnown(known) => Names(known, ref)
              case AtRecordRead(known, _) => Names(known, ref)
              case AtCommitFence(v) => v.reference == ref
              case AtCommit(v) => v.reference == ref
              case AtCommitRead(v, _) => v.reference == ref
              case Done(answer) => lost || (answer.Returned? && CarriesReference(answer.outcome, ref))
              case Crashed => true
              case _ => false))
  }

  ghost predicate ReconcilesTruly(call: Call, ref: Reference) {
    call.pc.AtRecordReconciled? || call.pc.AtReconciledRead? ==> Names(call.pc.known, ref)
  }

  // ---- The receipt under each step ----

  lemma QuietStoreNames(sh: Shared, id: CallId, call: Call, fault: Fault, routeConflict: bool, ref: Reference)
    requires SharedInv(sh) && CallInv(sh, id, call) && SlotNames(sh.slot, ref)
    requires !call.pc.AtRecordKnown? && !call.pc.AtRecordReconciled?
    ensures SlotNames(StepStore(sh, id, call, fault, routeConflict).0.slot, ref)
  {
    var after := StepStore(sh, id, call, fault, routeConflict);
    match call.pc
    case AtReserve => assert after == StepReserve(sh, call, fault); assert after.0.slot == sh.slot;
    case AtRecordPreflight(error) =>
      assert after == StepRecordPreflight(sh, call, error, fault);
      assert after.0.slot == sh.slot;
    case AtFence => assert after == StepFence(sh, id, call, fault); assert after.0.slot == sh.slot;
    case AtPersistUnknown(reconciling) => assert after == StepPersistUnknown(sh, call, reconciling, fault);
    case AtCommit(v) => assert after == StepCommit(sh, call, v, fault, routeConflict);
    case _ =>
  }

  lemma RecordNames(sh: Shared, args: CallArgs, known: Outcome, fault: Fault, ref: Reference)
    requires SharedInv(sh) && Matches(sh, args) && SlotNames(sh.slot, ref)
    requires Names(known, ref) && KnownFits(args, known)
    ensures var result := RecordReceipt(sh.slot, args.payload, RecordedPhase(args, known), known);
            && SlotNames(Perform(sh.slot, result, fault).0, ref)
            && (result.Ok? ==> if sh.slot.value.phase.Terminal? then result.value == sh.slot.value
                               else result.value.phase.ResultKnown? && result.value.outcome == Some(known))
  {
  }

  lemma OtherStepNames(sh: Shared, id: CallId, call: Call, other: CallId, otherCall: Call, choice: Choice,
      ref: Reference)
    requires SharedInv(sh) && CallInv(sh, id, call) && call.invoked && SlotNames(sh.slot, ref)
    requires CallInv(sh, other, otherCall) && other != id && ReconcilesTruly(otherCall, ref)
    ensures SlotNames(Step(sh, other, otherCall, choice).0.slot, ref)
  {
    if choice.StoreReplies? {
      if otherCall.pc.AtRecordReconciled? {
        RecordNames(sh, otherCall.args, otherCall.pc.known, choice.fault, ref);
        assert Step(sh, other, otherCall, choice)
            == StepRecordReconciled(sh, otherCall, otherCall.pc.known, choice.fault);
      } else {
        QuietStoreNames(sh, other, otherCall, choice.fault, choice.routeConflict, ref);
      }
    }
  }

  lemma ReconcilingStepNames(sh: Shared, id: CallId, call: Call, choice: Choice, ref: Reference)
    requires SharedInv(sh) && CallInv(sh, id, call) && ReconcilesTruly(call, ref)
    requires choice.NativeReplies? && choice.native.Reports? && call.pc.AtReconcile? ==>
        Names(choice.native.outcome, ref)
    ensures ReconcilesTruly(Step(sh, id, call, choice).1, ref)
  {
    if choice.StoreReplies? {
      ReconcilingStoreNames(sh, id, call, choice.fault, choice.routeConflict, ref);
    }
  }

  lemma ReconcilingStoreNames(sh: Shared, id: CallId, call: Call, fault: Fault, routeConflict: bool, ref: Reference)
    requires SharedInv(sh) && CallInv(sh, id, call) && ReconcilesTruly(call, ref)
    ensures ReconcilesTruly(StepStore(sh, id, call, fault, routeConflict).1, ref)
  {
    var after := StepStore(sh, id, call, fault, routeConflict);
    match call.pc
    case AtReserve => assert after == StepReserve(sh, call, fault);
    case AtRecordPreflight(error) => assert after == StepRecordPreflight(sh, call, error, fault);
    case AtFence => assert after == StepFence(sh, id, call, fault);
    case AtRecordKnown(known) => assert after == StepRecordKnown(sh, call, known, fault);
    case AtPersistUnknown(reconciling) => assert after == StepPersistUnknown(sh, call, reconciling, fault);
    case AtRecordReconciled(known) => assert after == StepRecordReconciled(sh, call, known, fault);
    case AtCommit(v) => assert after == StepCommit(sh, call, v, fault, routeConflict);
    case _ =>
  }

  // ---- The creator under each of its steps ----

  lemma OwnRecordTrue(sh: Shared, id: CallId, call: Call, known: Outcome, fault: Fault, ref: Reference)
    requires SharedInv(sh) && CallInv(sh, id, call) && OwnInv(sh, call, ref, false)
    requires call.pc == AtRecordKnown(known) && call.created.Some?
    ensures var after := StepRecordKnown(sh, call, known, fault);
            OwnInv(after.0, after.1, ref, fault.NoFault? && IsPartialReceipt(sh.slot))
  {
    RecordNames(sh, call.args, known, fault, ref);
  }

  lemma OwnCommitTrue(sh: Shared, id: CallId, call: Call, v: EffectValue, fault: Fault, routeConflict: bool,
      ref: Reference)
    requires SharedInv(sh) && CallInv(sh, id, call) && OwnInv(sh, call, ref, false)
    requires call.pc == AtCommit(v) && call.created.Some?
    ensures var after := StepCommit(sh, call, v, fault, routeConflict); OwnInv(after.0, after.1, ref, false)
  {
  }

  lemma OwnReadTrue(sh: Shared, id: CallId, call: Call, ok: bool, ref: Reference)
    requires SharedInv(sh) && CallInv(sh, id, call) && OwnInv(sh, call, ref, false) && call.created.Some?
    ensures OwnInv(sh, call.(pc := StepRead(sh, call, ok)), ref, false)
  {
  }

  lemma OwnFenceTrue(sh: Shared, id: CallId, call: Call, fault: Fault, ref: Reference)
    requires SharedInv(sh) && CallInv(sh, id, call) && call.pc.AtFence? && call.created.None? && call.args.WorkflowCall?
    ensures var after := StepFence(sh, id, call, fault); OwnInv(after.0, after.1, ref, false)
  {
  }

  /** A creator with nothing created yet reaches `invoke` only through the fence. */
  lemma NoCreationYet(sh: Shared, id: CallId, call: Call, fault: Fault, routeConflict: bool)
    requires call.created.None? && !call.pc.AtFence? && !call.pc.AtInvoke?
    ensures var after := StepStore(sh, id, call, fault, routeConflict).1; after.created.None? && !after.pc.AtInvoke?
  {
    var after := StepStore(sh, id, call, fault, routeConflict);
    match call.pc
    case AtReserve => assert after == StepReserve(sh, call, fault);
    case AtRecordPreflight(error) => assert after == StepRecordPreflight(sh, call, error, fault);
    case AtRecordKnown(known) => assert after == StepRecordKnown(sh, call, known, fault);
    case AtPersistUnknown(reconciling) => assert after == StepPersistUnknown(sh, call, reconciling, fault);
    case AtRecordReconciled(known) => assert after == StepRecordReconciled(sh, call, known, fault);
    case AtCommit(v) => assert after == StepCommit(sh, call, v, fault, routeConflict);
    case _ =>
  }

  lemma OwnStoreTrue(sh: Shared, id: CallId, call: Call, fault: Fault, routeConflict: bool, ref: Reference)
    requires SharedInv(sh) && CallInv(sh, id, call) && OwnInv(sh, call, ref, false) && call.args.WorkflowCall?
    ensures var after := StepStore(sh, id, call, fault, routeConflict);
            OwnInv(after.0, after.1, ref,
                   call.created.Some? && call.pc.AtRecordKnown? && fault.NoFault? && IsPartialReceipt(sh.slot))
  {
    var after := StepStore(sh, id, call, fault, routeConflict);
    if call.created.Some? {
      match call.pc
      case AtRecordKnown(known) =>
        OwnRecordTrue(sh, id, call, known, fault, ref);
        assert after == StepRecordKnown(sh, call, known, fault);
      case AtCommit(v) =>
        OwnCommitTrue(sh, id, call, v, fault, routeConflict, ref);
        assert after == StepCommit(sh, call, v, fault, routeConflict);
      case _ =>
    } else if call.pc.AtFence? {
      OwnFenceTrue(sh, id, call, fault, ref);
      assert after == StepFence(sh, id, call, fault);
    } else if !call.pc.AtInvoke? {
      NoCreationYet(sh, id, call, fault, routeConflict);
    }
  }

  lemma OwnCallbackTrue(sh: Shared, id: CallId, call: Call, choice: Choice, ref: Reference)
    requires SharedInv(sh) && CallInv(sh, id, call) && OwnInv(sh, call, ref, false) && call.args.WorkflowCall?
    requires !choice.StoreReplies? && !choice.ReadReplies?
    requires choice.NativeReplies? && choice.native.Reports? && call.pc.AtInvoke? && choice.native.outcome.Succeeded?
             ==> choice.native.outcome.value.reference == ref
    ensures var after := Step(sh, id, call, choice); OwnInv(after.0, after.1, ref, false)
  {
  }

  lemma OwnStepTrue(sh: Shared, id: CallId, call: Call, choice: Choice, ref: Reference)
    requires SharedInv(sh) && CallInv(sh, id, call) && OwnInv(sh, call, ref, false) && call.args.WorkflowCall?
    requires choice.NativeReplies? && choice.native.Reports? && call.pc.AtInvoke? && choice.native.outcome.Succeeded?
             ==> choice.native.outcome.value.reference == ref
    ensures var after := Step(sh, id, call, choice);
            OwnInv(after.0, after.1, ref,
                   call.created.Some? && call.pc.AtRecordKnown? && choice.StoreReplies? && choice.fault.NoFault?
                   && IsPartialReceipt(sh.slot))
  {
    var after := Step(sh, id, call, choice);
    if choice.StoreReplies? {
      OwnStoreTrue(sh, id, call, choice.fault, choice.routeConflict, ref);
      assert after == StepStore(sh, id, call, choice.fault, choice.routeConflict);
    } else if choice.ReadReplies? {
      assert after == (sh, call.(pc := StepRead(sh, call, choice.ok)));
      if call.created.Some? {
        OwnReadTrue(sh, id, call, choice.ok, ref);
      }
    } else {
      OwnCallbackTrue(sh, id, call, choice, ref);
    }
  }

  // ---- Runs ----

  ghost predicate TruthInv(s: System, id: CallId, ref: Reference, lost: bool) {
    && SystemInv(s) && id in s.calls && s.calls[id].args.WorkflowCall?
    && (forall i | i in s.calls :: ReconcilesTruly(s.calls[i], ref))
    && OwnInv(s.shared, s.calls[id], ref, lost)
  }

  lemma ApplyKeepsOthers(s: System, id: CallId, ref: Reference, lost: bool, event: Event)
    requires TruthInv(s, id, ref, lost) && SpeaksTruly(s, id, ref, event)
    ensures forall i | i in Apply(s, event).calls :: ReconcilesTruly(Apply(s, event).calls[i], ref)
  {
    if event.Advance? && event.id in s.calls {
      assert CallInv(s.shared, event.id, s.calls[event.id]);
      ReconcilingStepNames(s.shared, event.id, s.calls[event.id], event.choice, ref);
    }
  }

  lemma ApplyKeepsOwn(s: System, id: CallId, ref: Reference, lost: bool, event: Event)
    requires TruthInv(s, id, ref, lost) && SpeaksTruly(s, id, ref, event)
    ensures OwnInv(Apply(s, event).shared, Apply(s, event).calls[id], ref, lost || FindsPartial(s, id, event))
  {
    var call := s.calls[id];
    assert CallInv(s.shared, id, call);
    if event.Advance? && event.id in s.calls {
      var stepping := s.calls[event.id];
      assert CallInv(s.shared, event.id, stepping);
      if event.id != id {
        if call.pc.AtInvoke? || call.created.Some? {
          OtherStepNames(s.shared, id, call, event.id, stepping, event.choice, ref);
        }
      } else if lost {
        DoneStays(s.shared, id, call, event.choice);
        assert SlotNames(s.shared.slot, ref);
      } else {
        OwnStepTrue(s.shared, id, call, event.choice, ref);
      }
    }
  }

  lemma DoneStays(sh: Shared, id: CallId, call: Call, choice: Choice)
    requires call.pc.Done?
    ensures Step(sh, id, call, choice) == (sh, call)
  {
  }

  lemma {:induction false} TruthfulRunKeeps(s: System, id: CallId, ref: Reference, lost: bool, events: seq<Event>)
    requires TruthInv(s, id, ref, lost) && Truthful(s, id, ref, events)
    ensures TruthInv(Run(s, events), id, ref, lost || RecordsIntoPartial(s, id, events))
    decreases |events|
  {
    if events != [] {
      var event := events[0];
      ApplyKeeps(s, event);
      ApplyKeepsArgs(s, event);
      ApplyKeepsOthers(s, id, ref, lost, event);
      ApplyKeepsOwn(s, id, ref, lost, event);
      TruthfulRunKeeps(Apply(s, event), id, ref, lost || FindsPartial(s, id, event), events[1..]);
    }
  }

  /**
    With truthful reconcilers a workflow call answers with what it created exactly if its own record did
    not find the receipt ended with a Partial outcome by another call.
   */
  lemma TruthfulCreationLostExactly(
    generation: nat, args: map<CallId, CallArgs>, id: CallId, ref: Reference, events: seq<Event>)
    requires id in args && args[id].WorkflowCall? && Truthful(Initial(generation, args), id, ref, events)
    ensures KeepsCreation(Run(Initial(generation, args), events), id)
            <==> !RecordsIntoPartial(Initial(generation, args), id, events)
  {
    TruthfulRunKeeps(Initial(generation, args), id, ref, false, events);
  }

  // ---- Where a Partial receipt comes from ----

  /** The step is a commit whose route conflicts. */
  predicate CommitsInConflict(s: System, event: Event) {
    && event.Advance? && event.id in s.calls && s.calls[event.id].pc.AtCommit?
    && event.choice.StoreReplies? && event.choice.routeConflict
  }

  predicate SomeCommitConflicts(s: System, events: seq<Event>)
    decreases |events|
  {
    events != [] && (CommitsInConflict(s, events[0]) || SomeCommitConflicts(Apply(s, events[0]), events[1..]))
  }

  /** A Partial receipt says whether the generation was moved from outside or a commit's route conflicted. */
  ghost predicate Settled(sh: Shared, rebound: bool, conflicted: bool) {
    && (IsPartialReceipt(sh.slot) ==>
          var code := sh.slot.value.outcome.value.error.code;
          (code == StaleBinding && rebound) || (code == ConflictCode && conflicted))
    && (!rebound && sh.slot.Some? && sh.slot.value.category.WorkflowCategory? && !sh.slot.value.phase.Terminal? ==>
          sh.slot.value.bindingGeneration == Some(sh.generation))
  }

  lemma CommitSettles(
    sh: Shared, call: Call, v: EffectValue, fault: Fault, routeConflict: bool, rebound: bool, conflicted: bool)
    requires SharedInv(sh) && Settled(sh, rebound, conflicted)
    ensures Settled(StepCommit(sh, call, v, fault, routeConflict).0, rebound, conflicted || routeConflict)
  {
  }

  /** The stored receipt as it was, or an open one moved on without a Partial outcome. */
  predicate MovesOn(slot: Option<Receipt>, receipt: Receipt) {
    || slot == Some(receipt)
    || (&& slot.Some? && !slot.value.phase.Terminal? && !IsPartialReceipt(Some(receipt))
        && receipt.category == slot.value.category && receipt.bindingGeneration == slot.value.bindingGeneration)
  }

  lemma MovingOnSettles(sh: Shared, result: Result<Receipt, Exn>, fault: Fault, rebound: bool, conflicted: bool)
    requires Settled(sh, rebound, conflicted) && (result.Ok? ==> MovesOn(sh.slot, result.value))
    ensures Settled(sh.(slot := Perform(sh.slot, result, fault).0), rebound, conflicted)
  {
  }

  lemma RecordMovesOn(slot: Option<Receipt>, payload: string, phase: Phase, outcome: Outcome)
    requires !outcome.Partial?
    ensures var result := RecordReceipt(slot, payload, phase, outcome); result.Ok? ==> MovesOn(slot, result.value)
  {
  }

  lemma RecordSettles(
    sh: Shared, args: CallArgs, phase: Phase, outcome: Outcome, fault: Fault, rebound: bool, conflicted: bool)
    requires Settled(sh, rebound, conflicted) && !outcome.Partial?
    ensures var result := RecordReceipt(sh.slot, args.payload, phase, outcome);
            Settled(sh.(slot := Perform(sh.slot, result, fault).0), rebound, conflicted)
  {
    RecordMovesOn(sh.slot, args.payload, phase, outcome);
    MovingOnSettles(sh, RecordReceipt(sh.slot, args.payload, phase, outcome), fault, rebound, conflicted);
  }

  lemma PreflightSettles(sh: Shared, call: Call, error: ActionError, fault: Fault, rebound: bool, conflicted: bool)
    requires Settled(sh, rebound, conflicted)
    ensures Settled(StepRecordPreflight(sh, call, error, fault).0, rebound, conflicted)
  {
    var result := PreflightFailureReceipt(sh.slot, call.args.payload, error);
    assert result.Ok? ==> MovesOn(sh.slot, result.value);
    MovingOnSettles(sh, result, fault, rebound, conflicted);
  }

  lemma FenceSettles(sh: Shared, id: CallId, call: Call, fault: Fault, rebound: bool, conflicted: bool)
    requires SharedInv(sh) && Settled(sh, rebound, conflicted)
    ensures Settled(StepReserve(sh, call, fault).0, rebound, conflicted)
    ensures Settled(StepFence(sh, id, call, fault).0, rebound, conflicted)
  {
  }

  lemma StoreSettles(
    sh: Shared, id: CallId, call: Call, fault: Fault, routeConflict: bool, rebound: bool, conflicted: bool)
    requires SharedInv(sh) && CallInv(sh, id, call) && Settled(sh, rebound, conflicted)
    ensures Settled(StepStore(sh, id, call, fault, routeConflict).0, rebound,
                    conflicted || (call.pc.AtCommit? && routeConflict))
  {
    var after := StepStore(sh, id, call, fault, routeConflict);
    FenceSettles(sh, id, call, fault, rebound, conflicted);
    match call.pc
    case AtReserve => assert after == StepReserve(sh, call, fault);
    case AtFence => assert after == StepFence(sh, id, call, fault);
    case AtRecordPreflight(error) =>
      PreflightSettles(sh, call, error, fault, rebound, conflicted);
      assert after == StepRecordPreflight(sh, call, error, fault);
    case AtRecordKnown(known) =>
      RecordSettles(sh, call.args, RecordedPhase(call.args, known), known, fault, rebound, conflicted);
      assert after == StepRecordKnown(sh, call, known, fault);
    case AtPersistUnknown(reconciling) =>
      RecordSettles(sh, call.args, Started, Unknown(NativeOutcomeUnknown), fault, rebound, conflicted);
      assert after == StepPersistUnknown(sh, call, reconciling, fault);
    case AtRecordReconciled(known) =>
      RecordSettles(sh, call.args, RecordedPhase(call.args, known), known, fault, rebound, conflicted);
      assert after == StepRecordReconciled(sh, call, known, fault);
    case AtCommit(v) =>
      CommitSettles(sh, call, v, fault, routeConflict, rebound, conflicted);
      assert after == StepCommit(sh, call, v, fault, routeConflict);
    case _ =>
  }

  lemma ApplySettles(s: System, event: Event, rebound: bool, conflicted: bool)
    requires SystemInv(s) && Settled(s.shared, rebound, conflicted)
    ensures Settled(Apply(s, event).shared, rebound || event.Rebind?, conflicted || CommitsInConflict(s, event))
  {
    if event.Advance? && event.id in s.calls {
      assert CallInv(s.shared, event.id, s.calls[event.id]);
      if event.choice.StoreReplies? {
        StoreSettles(s.shared, event.id, s.calls[event.id], event.choice.fault, event.choice.routeConflict,
                     rebound, conflicted);
      }
    }
  }

  lemma {:induction false} RunSettles(s: System, id: CallId, events: seq<Event>, rebound: bool, conflicted: bool)
    requires SystemInv(s) && Settled(s.shared, rebound, conflicted)
    ensures Settled(Run(s, events).shared, rebound || Rebind in events, conflicted || SomeCommitConflicts(s, events))
    ensures RecordsIntoPartial(s, id, events) ==>
              rebound || conflicted || Rebind in events || SomeCommitConflicts(s, events)
    decreases |events|
  {
    if events != [] {
      var event := events[0];
      ApplyKeeps(s, event);
      ApplySettles(s, event, rebound, conflicted);
      RunSettles(Apply(s, event), id, events[1..], rebound || event.Rebind?, conflicted || CommitsInConflict(s, event));
      assert events == [event] + events[1..];
      assert Rebind in events <==> event == Rebind || Rebind in events[1..];
    }
  }

  /**
    A workflow ends Partial only in a run in which its Conversation was bound anew, and then the code says so,
    or in which a commit's route conflicted, and then the code says that.
   */
  lemma PartialMeansMovedOrConflicting(generation: nat, args: map<CallId, CallArgs>, events: seq<Event>)
    ensures var start := Initial(generation, args);
            var slot := Run(start, events).shared.slot;
            IsPartialReceipt(slot) ==>
              var code := slot.value.outcome.value.error.code;
              || (code == StaleBinding && Rebind in events)
              || (code == ConflictCode && SomeCommitConflicts(start, events))
  {
    RunSettles(Initial(generation, args), 0, events, false, false);
  }

  /** With truthful reconcilers, and without rebinding or a commit whose route conflicts, every creation is kept. */
  lemma QuietTruthfulRunsKeepCreation(
    generation: nat, args: map<CallId, CallArgs>, id: CallId, ref: Reference, events: seq<Event>)
    requires id in args && args[id].WorkflowCall? && Truthful(Initial(generation, args), id, ref, events)
    requires Rebind !in events && !SomeCommitConflicts(Initial(generation, args), events)
    ensures KeepsCreation(Run(Initial(generation, args), events), id)
  {
    RunSettles(Initial(generation, args), id, events, false, false);
    TruthfulCreationLostExactly(generation, args, id, ref, events);
  }

  // ---- A truthful run that loses the creation ----

  /** The rival reserves, reconciles the creation, records it and reads it back, and is let through the commit fence. */
  function RivalAdopts(rival: CallId, created: EffectValue): seq<Event> {
    [ Advance(rival, StoreReplies(NoFault, false)), Advance(rival, NativeReplies(Reports(Succeeded(created)))),
      Advance(rival, StoreReplies(NoFault, false)), Advance(rival, ReadReplies(true)) ]
  }

  /** Then the Conversation is bound anew, the rival commits too late, and the creator records last. */
  function RivalCommitsLate(id: CallId, rival: CallId): seq<Event> {
    [ Advance(rival, FenceOpens), Rebind, Advance(rival, StoreReplies(NoFault, false)),
      Advance(id, StoreReplies(NoFault, false)) ]
  }

  lemma RivalConfirms(s: System, rival: CallId, created: EffectValue)
    requires rival in s.calls && s.calls[rival].pc.AtReconcile? && KnownFits(s.calls[rival].args, Succeeded(created))
    ensures var after := Apply(s, Advance(rival, NativeReplies(Reports(Succeeded(created)))));
            && after.shared.slot == s.shared.slot && after.shared.generation == s.shared.generation
            && after.calls == s.calls[rival := s.calls[rival].(pc := AtRecordReconciled(Succeeded(created)))]
  {
  }

  lemma RivalRecordsCreation(s: System, rival: CallId, created: EffectValue, generation: nat)
    requires rival in s.calls && s.calls[rival].pc == AtRecordReconciled(Succeeded(created))
    requires s.calls[rival].args.WorkflowCall? && KnownFits(s.calls[rival].args, Succeeded(created))
    requires s.shared.slot == Some(StartedReceipt(s.calls[rival].args.payload, generation))
    ensures var after := Apply(s, Advance(rival, StoreReplies(NoFault, false)));
            && after.shared.slot == Some(s.shared.slot.value.(
                 phase := ResultKnown, outcome := Some(Succeeded(created))))
            && after.shared.generation == s.shared.generation
            && after.calls == s.calls[rival := s.calls[rival].(pc := AtReread)]
  {
  }

  lemma RivalReachesCommit(s: System, rival: CallId, created: EffectValue, receipt: Receipt)
    requires rival in s.calls && s.calls[rival].pc.AtReread? && s.calls[rival].args.WorkflowCall?
    requires KnownFits(s.calls[rival].args, Succeeded(created)) && s.shared.slot == Some(receipt)
    requires receipt.payload == s.calls[rival].args.payload && receipt.phase.ResultKnown?
    requires receipt.outcome == Some(Succeeded(created))
    ensures var read := Apply(s, Advance(rival, ReadReplies(true)));
            && read.shared == s.shared && rival in read.calls
            && read.calls == s.calls[rival := s.calls[rival].(pc := read.calls[rival].pc)]
            && CommitsNext(read, rival, created)
  {
    var read := Apply(s, Advance(rival, ReadReplies(true)));
    assert read.calls[rival].pc == CommitKnown(s.calls[rival].args, receipt);
  }

  /** Whether or not the call has a commit fence to pass, it commits next. */
  predicate CommitsNext(s: System, rival: CallId, created: EffectValue)
    requires rival in s.calls
  {
    Apply(s, Advance(rival, FenceOpens)) == s.(calls := s.calls[rival := s.calls[rival].(pc := AtCommit(created))])
  }

  lemma RivalCommits(s: System, rival: CallId, created: EffectValue, receipt: Receipt)
    requires rival in s.calls && s.calls[rival].pc == AtCommit(created) && s.calls[rival].args.WorkflowCall?
    requires s.shared.slot == Some(receipt) && receipt.payload == s.calls[rival].args.payload
    requires receipt.category.WorkflowCategory? && receipt.phase.ResultKnown?
        && receipt.outcome == Some(Succeeded(created))
    requires receipt.bindingGeneration != Some(s.shared.generation as int)
    ensures var after := Apply(s, Advance(rival, StoreReplies(NoFault, false)));
            && after.shared.slot == Some(receipt.(
                 phase := Terminal, outcome := Some(Partial(created, ActionError(StaleBinding, None)))))
            && after.calls == s.calls[rival := after.calls[rival]]
  {
  }

  lemma CreatorFindsPartial(s: System, id: CallId, created: EffectValue)
    requires id in s.calls && s.calls[id].pc == AtRecordKnown(Succeeded(created)) && s.calls[id].args.WorkflowCall?
    requires IsPartialReceipt(s.shared.slot) && s.shared.slot.value.payload == s.calls[id].args.payload
    ensures Apply(s, Advance(id, StoreReplies(NoFault, false))).calls
            == s.calls[id := s.calls[id].(pc := Done(Escaped(OtherExn)))]
  {
  }

  lemma RivalAdoptsRuns(s: System, id: CallId, rival: CallId, created: EffectValue, generation: nat)
    requires id in s.calls && rival in s.calls && id != rival
    requires s.calls[rival].args.WorkflowCall? && ValidArgs(s.calls[rival].args) && s.calls[rival].args.hasReconcile
    requires s.calls[rival].pc.AtReserve? && KnownFits(s.calls[rival].args, Succeeded(created))
    requires s.shared.slot == Some(StartedReceipt(s.calls[rival].args.payload, generation))
    ensures var after := Run(s, RivalAdopts(rival, created));
            && rival in after.calls
            && after.shared.slot == Some(s.shared.slot.value.(
                 phase := ResultKnown, outcome := Some(Succeeded(created))))
            && after.shared.generation == s.shared.generation
            && after.calls == s.calls[rival := s.calls[rival].(pc := after.calls[rival].pc)]
            && CommitsNext(after, rival, created)
  {
    var es := RivalAdopts(rival, created);
    RunOfFour(s, es[0], es[1], es[2], es[3]);
    RivalEnters(s, rival, generation);
    var s1 := Apply(s, es[0]);
    EnteringKeepsGeneration(s, rival);
    RivalConfirms(s1, rival, created);
    var s2 := Apply(s1, es[1]);
    RivalRecordsCreation(s2, rival, created, generation);
    var s3 := Apply(s2, es[2]);
    RivalReachesCommit(s3, rival, created, s3.shared.slot.value);
  }

  lemma EnteringKeepsGeneration(s: System, rival: CallId)
    requires rival in s.calls && s.calls[rival].pc.AtReserve?
    ensures Apply(s, Advance(rival, StoreReplies(NoFault, false))).shared.generation == s.shared.generation
  {
  }

  lemma RivalCommitsLateRuns(s: System, id: CallId, rival: CallId, created: EffectValue, receipt: Receipt)
    requires id in s.calls && rival in s.calls && id != rival
    requires s.calls[id].pc == AtRecordKnown(Succeeded(created)) && s.calls[id].args.WorkflowCall?
    requires s.calls[rival].args.WorkflowCall? && s.calls[rival].args.payload == s.calls[id].args.payload
    requires CommitsNext(s, rival, created) && s.shared.slot == Some(receipt)
    requires receipt.bindingGeneration == Some(s.shared.generation as int)
    requires receipt.payload == s.calls[id].args.payload && receipt.category.WorkflowCategory?
    requires receipt.phase.ResultKnown? && receipt.outcome == Some(Succeeded(created))
    ensures var after := Run(s, RivalCommitsLate(id, rival));
            id in after.calls && after.calls[id] == s.calls[id].(pc := Done(Escaped(OtherExn)))
  {
    var es := RivalCommitsLate(id, rival);
    RunOfFour(s, es[0], es[1], es[2], es[3]);
    var s1 := Apply(s, es[0]);
    var s2 := Apply(s1, es[1]);
    assert s2.calls == s1.calls && s2.shared.generation == s1.shared.generation + 1;
    RivalCommits(s2, rival, created, receipt);
    CreatorFindsPartial(Apply(s2, es[2]), id, created);
  }

  /** Events in which every native report is the creation make a truthful run. */
  lemma {:induction false} OneReportIsTruthful(s: System, id: CallId, created: EffectValue, events: seq<Event>)
    requires forall event | event in events ::
               event.Advance? && event.choice.NativeReplies? ==> event.choice.native == Reports(Succeeded(created))
    ensures Truthful(s, id, created.reference, events)
    decreases |events|
  {
    if events != [] {
      assert events[0] in events;
      OneReportIsTruthful(Apply(s, events[0]), id, created, events[1..]);
    }
  }

  function LateCommit(id: CallId, rival: CallId, created: EffectValue): seq<Event> {
    CreatorEvents(id, created) + (RivalAdopts(rival, created) + RivalCommitsLate(id, rival))
  }

  /** Here every reconciler is truthful, and the creating call still ends without its creation. */
  lemma TruthfulRivalMakesCreationLost(args: map<CallId, CallArgs>, id: CallId, rival: CallId)
    requires id in args && args[id].WorkflowCall? && ValidArgs(args[id]) && IsRival(args, id, rival)
    requires args[rival].request == args[id].request   // as equal fingerprints have it
    ensures var created := CreatedFor(args[id].request);
            && Truthful(Initial(0, args), id, created.reference, LateCommit(id, rival, created))
            && !KeepsCreation(Run(Initial(0, args), LateCommit(id, rival, created)), id)
  {
    LateCommitLoses(args, id, rival);
    OneReportIsTruthful(
      Initial(0, args), id, CreatedFor(args[id].request), LateCommit(id, rival, CreatedFor(args[id].request)));
  }

  lemma LateCommitLoses(args: map<CallId, CallArgs>, id: CallId, rival: CallId)
    requires id in args && args[id].WorkflowCall? && ValidArgs(args[id]) && IsRival(args, id, rival)
    requires args[rival].request == args[id].request
    ensures !KeepsCreation(Run(Initial(0, args), LateCommit(id, rival, CreatedFor(args[id].request))), id)
  {
    var created := CreatedFor(args[id].request);
    CreatedFits(args[id]);
    CreatedFits(args[rival]);
    StartsAtReserve(args, id);
    StartsAtReserve(args, rival);
    LateCommitRuns(Initial(0, args), id, rival, created);
  }

  lemma StartsAtReserve(args: map<CallId, CallArgs>, id: CallId)
    requires id in args
    ensures var s := Initial(0, args);
            s.shared.slot.None? && id in s.calls && s.calls[id] == Call(args[id], AtReserve, 0, false, None)
  {
  }

  lemma CreatedFits(args: CallArgs)
    requires args.WorkflowCall? && ValidArgs(args)
    ensures KnownFits(args, Succeeded(CreatedFor(args.request)))
  {
  }

  lemma LateCommitRuns(s: System, id: CallId, rival: CallId, created: EffectValue)
    requires id in s.calls && rival in s.calls && id != rival && s.shared.slot.None?
    requires s.calls[id].args.WorkflowCall? && ValidArgs(s.calls[id].args) && s.calls[id].pc.AtReserve?
    requires s.calls[rival].args.WorkflowCall? && ValidArgs(s.calls[rival].args) && s.calls[rival].args.hasReconcile
    requires s.calls[rival].pc.AtReserve? && s.calls[rival].args.payload == s.calls[id].args.payload
    requires KnownFits(s.calls[id].args, Succeeded(created)) && KnownFits(s.calls[rival].args, Succeeded(created))
    ensures var after := Run(s, LateCommit(id, rival, created));
            && id in after.calls && after.calls[id].created == Some(created)
            && after.calls[id].pc == Done(Escaped(OtherExn))
  {
    CreatorRuns(s, id, created);
    CreatingKeepsGeneration(s, id, created);
    RivalRunsLate(Run(s, CreatorEvents(id, created)), id, rival, created);
    RunAppends(s, CreatorEvents(id, created), RivalAdopts(rival, created) + RivalCommitsLate(id, rival));
  }

  lemma RivalRunsLate(s: System, id: CallId, rival: CallId, created: EffectValue)
    requires id in s.calls && rival in s.calls && id != rival
    requires s.calls[rival].args.WorkflowCall? && ValidArgs(s.calls[rival].args) && s.calls[rival].args.hasReconcile
    requires s.calls[rival].pc.AtReserve? && KnownFits(s.calls[rival].args, Succeeded(created))
    requires s.calls[id].pc == AtRecordKnown(Succeeded(created)) && s.calls[id].args.WorkflowCall?
    requires s.calls[rival].args.payload == s.calls[id].args.payload
    requires s.shared.slot == Some(StartedReceipt(s.calls[id].args.payload, s.shared.generation))
    ensures var after := Run(s, RivalAdopts(rival, created) + RivalCommitsLate(id, rival));
            id in after.calls && after.calls[id] == s.calls[id].(pc := Done(Escaped(OtherExn)))
  {
    RivalAdoptsRuns(s, id, rival, created, s.shared.generation);
    var adopted := Run(s, RivalAdopts(rival, created));
    RivalCommitsLateRuns(adopted, id, rival, created, adopted.shared.slot.value);
    RunAppends(s, RivalAdopts(rival, created), RivalCommitsLate(id, rival));
  }

  lemma CreatingKeepsGeneration(s: System, id: CallId, created: EffectValue)
    requires id in s.calls && s.calls[id].args.WorkflowCall? && ValidArgs(s.calls[id].args)
    requires s.shared.slot.None? && s.calls[id].pc.AtReserve? && KnownFits(s.calls[id].args, Succeeded(created))
    ensures Run(s, CreatorEvents(id, created)).shared.generation == s.shared.generation
  {
    var es := CreatorEvents(id, created);
    RunOfFour(s, es[0], es[1], es[2], es[3]);
    NoCommitNoGeneration(s, id, es[0]);
    var s1 := Apply(s, es[0]);
    assert s1.calls[id].pc == if s.calls[id].args.hasPreflight then AtPreflight else AtFence;
    var s2 := Apply(s1, es[1]);
    assert s2.shared == s1.shared && s2.calls[id].pc == AtFence;
    NoCommitNoGeneration(s2, id, es[2]);
  }

  /** Only a commit moves the generation from inside. */
  lemma NoCommitNoGeneration(s: System, id: CallId, event: Event)
    requires event == Advance(id, StoreReplies(NoFault, false)) && id in s.calls && !s.calls[id].pc.AtCommit?
    ensures Apply(s, event).shared.generation == s.shared.generation
  {
  }
}
