/**
  Durable effect receipts: the outcome algebra, the receipt of one action key, and
  what each store operation does to that receipt.  `GatewayStore` is the in-memory
  store; its methods are proved against the functions on a single receipt.
 */
module EffectReceipts {
  import opened Identifiers
  import opened Wrappers

  datatype ErrorCode =
    | ConflictCode | CapacityExhausted | StaleRuntime | StaleBinding | Unsupported
    | NativeRejected | NativeOutcomeUnknown | StoreFailure | QueueAlreadyAdmitted

  datatype ActionError = ActionError(code: ErrorCode, operation: Option<string>)

  datatype ReferenceKind = ApplicationKind | ProjectKind | ThreadKind | TurnKind | RequestKind

  datatype StableReference = StableReference(
    kind: ReferenceKind,
    applicationId: string,
    projectId: Option<string>,
    threadId: Option<string>,
    turnId: Option<string>,
    requestId: Option<string>)

  datatype Conversation = Conversation(channelId: string, nativeId: string)

  /** A route id is opaque: either what a native reply carried, or derived from a Thread and a Conversation. */
  datatype RouteId = Given(text: string) | Derived(thread: StableReference, conversation: Conversation)

  datatype EffectValue = EffectValue(
    reference: Option<StableReference>,
    conversation: Option<Conversation>,
    bindingGeneration: Option<int>,
    routeId: Option<RouteId>)

  datatype Outcome =
    | Succeeded(value: EffectValue)
    | Failed(error: ActionError)
    | Partial(value: EffectValue, error: ActionError)
    | OutcomeUnknown(error: ActionError)

  datatype Category = GatewayCategory | NativeCategory | RequestResponseCategory | WorkflowCategory

  datatype Phase = Reserved | Started | ResultKnown | Terminal

  datatype Receipt = Receipt(
    payload: string,
    category: Category,
    phase: Phase,
    nativePhaseId: Option<string>,
    bindingGeneration: Option<int>,
    outcome: Option<Outcome>)

  /** The exception families that the executor's handlers tell apart. */
  datatype Exn = Cancelled | ConflictExn | CapacityExn | StaleExn | StoreExn | OtherExn

  function PhaseRank(phase: Phase): nat {
    match phase
    case Reserved => 0
    case Started => 1
    case ResultKnown => 2
    case Terminal => 3
  }

  predicate ValidOptionalIdentifier(s: Option<string>, required: bool) {
    s.Some? == required && (s.Some? ==> ValidIdentifier(s.value))
  }

  /** Exactly the fields that the kind names are present, and each is an identifier. */
  predicate ValidReference(r: StableReference) {
    && ValidIdentifier(r.applicationId)
    && ValidOptionalIdentifier(r.projectId, r.kind in {ProjectKind, ThreadKind, TurnKind})
    && ValidOptionalIdentifier(r.threadId, r.kind in {ThreadKind, TurnKind})
    && ValidOptionalIdentifier(r.turnId, r.kind == TurnKind)
    && ValidOptionalIdentifier(r.requestId, r.kind == RequestKind)
  }

  predicate ValidConversation(c: Conversation) {
    ValidIdentifier(c.channelId) && ValidIdentifier(c.nativeId)
  }

  predicate ValidEffectValue(v: EffectValue) {
    && (v.reference.Some? ==> ValidReference(v.reference.value))
    && (v.conversation.Some? ==> ValidConversation(v.conversation.value))
    && (v.bindingGeneration.Some? ==> v.bindingGeneration.value >= 0)
    && (v.routeId.Some? && v.routeId.value.Given? ==> ValidIdentifier(v.routeId.value.text))
  }

  predicate ValidReceipt(r: Receipt) {
    && (r.bindingGeneration.Some? ==> r.bindingGeneration.value >= 0)
    && (if r.category.GatewayCategory?
        then r.phase.Terminal? && r.nativePhaseId.None? && r.bindingGeneration.None?
             && r.outcome.Some? && (r.outcome.value.Succeeded? || r.outcome.value.Failed?)
        else r.nativePhaseId.Some? && ValidIdentifier(r.nativePhaseId.value))
    && (!r.category.WorkflowCategory? ==> r.bindingGeneration.None?)
    && (r.phase.Reserved? ==> r.outcome.None?)
    && (r.phase.Started? && r.outcome.Some? ==> r.outcome.value.OutcomeUnknown?)
    && (r.phase.ResultKnown? ==>
          r.category.WorkflowCategory? && r.outcome.Some? && r.outcome.value.Succeeded?)
    && (r.phase.Terminal? ==> r.outcome.Some? && !r.outcome.value.OutcomeUnknown?)
    && (r.phase.Terminal? && r.outcome.value.Partial? ==> r.category.WorkflowCategory?)
    && (r.outcome.Some? && (r.outcome.value.Succeeded? || r.outcome.value.Partial?) ==>
          ValidEffectValue(r.outcome.value.value))
  }

  // ---- One receipt under each store operation.  `Ok(r)` means that r is now the stored receipt. ----

  function ReserveReceipt(slot: Option<Receipt>, payload: string, category: Category,
                          phaseId: string, generation: Option<int>): Result<Receipt, Exn>
  {
    match slot
    case Some(r) =>
      if r.payload != payload || r.category != category || r.nativePhaseId != Some(phaseId)
      then Err(ConflictExn) else Ok(r)
    case None =>
      var r := Receipt(payload, category, Reserved, Some(phaseId), generation, None);
      if ValidReceipt(r) then Ok(r) else Err(OtherExn)
  }

  /** A missing receipt is a key error; a receipt of another payload is a conflict. */
  function RequireReceipt(slot: Option<Receipt>, payload: string): Result<Receipt, Exn> {
    if slot.None? then Err(OtherExn)
    else if slot.value.payload != payload then Err(ConflictExn)
    else Ok(slot.value)
  }

  function MarkReceipt(slot: Option<Receipt>, payload: string): Result<Receipt, Exn> {
    var found := RequireReceipt(slot, payload);
    if found.Err? || !found.value.phase.Reserved? then found
    else Ok(found.value.(phase := Started))
  }

  /** Whether marking advances the receipt, which is what the store reports as `acquired`. */
  predicate MarkAcquires(slot: Option<Receipt>, payload: string) {
    RequireReceipt(slot, payload).Ok? && slot.value.phase.Reserved?
  }

  function RecordReceipt(slot: Option<Receipt>, payload: string, phase: Phase, outcome: Outcome): Result<Receipt, Exn> {
    var found := RequireReceipt(slot, payload);
    if phase.Reserved? || (phase.Started? && !outcome.OutcomeUnknown?) then Err(OtherExn)
    else if found.Err? || found.value.phase.Terminal? then found
    else if found.value.phase.Reserved? then Err(OtherExn)
    else if phase.ResultKnown? && !(found.value.category.WorkflowCategory? && outcome.Succeeded?) then Err(OtherExn)
    else if found.value.phase.ResultKnown? then Err(OtherExn)
    else if found.value.category.WorkflowCategory? && phase.Terminal? && outcome.Succeeded? then Err(OtherExn)
    else
      var updated := found.value.(phase := phase, outcome := Some(outcome));
      if ValidReceipt(updated) then Ok(updated) else Err(OtherExn)
  }

  function PreflightFailureReceipt(slot: Option<Receipt>, payload: string, error: ActionError): Result<Receipt, Exn> {
    var found := RequireReceipt(slot, payload);
    if found.Err? || !found.value.phase.Reserved? then found
    else
      var updated := found.value.(phase := Terminal, outcome := Some(Failed(error)));
      if ValidReceipt(updated) then Ok(updated) else Err(OtherExn)
  }

  /**
    The binding is written exactly when the generation captured at reservation is still current and no route
    conflicts.
   */
  predicate CommitBinds(slot: Option<Receipt>, payload: string, generation: int, routeConflict: bool) {
    && RequireReceipt(slot, payload).Ok?
    && slot.value.category.WorkflowCategory?
    && slot.value.phase.ResultKnown?
    && slot.value.outcome.Some? && slot.value.outcome.value.Succeeded?
    && slot.value.bindingGeneration == Some(generation)
    && !routeConflict
  }

  function CommitReceipt(slot: Option<Receipt>, payload: string, generation: int, routeConflict: bool,
                         conversation: Conversation, routeId: Option<RouteId>): Result<Receipt, Exn>
  {
    var found := RequireReceipt(slot, payload);
    if found.Err? then found
    else if !found.value.category.WorkflowCategory? then Err(ConflictExn)
    else if found.value.phase.Terminal? then found
    else if !found.value.phase.ResultKnown? || found.value.outcome.None? || !found.value.outcome.value.Succeeded?
    then Err(OtherExn)
    else
      var created := found.value.outcome.value.value;
      var outcome :=
        if found.value.bindingGeneration != Some(generation) then Partial(created, ActionError(StaleBinding, None))
        else if routeConflict then Partial(created, ActionError(ConflictCode, None))
        else Succeeded(created.(conversation := Some(conversation),
                                bindingGeneration := Some(generation + 1),
                                routeId := routeId));
      Ok(found.value.(phase := Terminal, outcome := Some(outcome)))
  }

  /**
    What a store operation may do to a receipt: it keeps its identity and moves forward, and a terminal receipt is
    frozen.
   */
  ghost predicate Advances(before: Option<Receipt>, after: Option<Receipt>) {
    before.Some? ==>
      && after.Some?
      && after.value.payload == before.value.payload
      && after.value.category == before.value.category
      && after.value.nativePhaseId == before.value.nativePhaseId
      && after.value.bindingGeneration == before.value.bindingGeneration
      && PhaseRank(before.value.phase) <= PhaseRank(after.value.phase)
      && (before.value.phase.Terminal? ==> after == before)
      && (before.value.phase.ResultKnown? && after.value.phase.ResultKnown? ==> after == before)
  }

  ghost predicate AdvancesValidly(slot: Option<Receipt>, result: Result<Receipt, Exn>) {
    result.Ok? ==> Advances(slot, Some(result.value)) && ValidReceipt(result.value)
  }

  lemma ReserveAdvances(slot: Option<Receipt>, payload: string, category: Category, phaseId: string,
      generation: Option<int>)
    requires slot.Some? ==> ValidReceipt(slot.value)
    ensures AdvancesValidly(slot, ReserveReceipt(slot, payload, category, phaseId, generation))
  {
  }

  lemma RecordAdvances(slot: Option<Receipt>, payload: string, phase: Phase, outcome: Outcome, error: ActionError)
    requires slot.Some? ==> ValidReceipt(slot.value)
    ensures AdvancesValidly(slot, MarkReceipt(slot, payload))
    ensures AdvancesValidly(slot, RecordReceipt(slot, payload, phase, outcome))
    ensures AdvancesValidly(slot, PreflightFailureReceipt(slot, payload, error))
  {
  }

  lemma CommitAdvances(slot: Option<Receipt>, payload: string, generation: int, routeConflict: bool,
                       conversation: Conversation, routeId: Option<RouteId>)
    requires slot.Some? ==> ValidReceipt(slot.value)
    requires ValidConversation(conversation)
    requires routeId.Some? && routeId.value.Given? ==> ValidIdentifier(routeId.value.text)
    requires generation >= 0
    ensures AdvancesValidly(slot, CommitReceipt(slot, payload, generation, routeConflict, conversation, routeId))
  {
  }

  type ActionKey = string

  /** The in-memory store: receipts by action key, and the binding generation of each Conversation. */
  class GatewayStore {
    var receipts: map<ActionKey, Receipt>
    var generations: map<Conversation, nat>
    var leaseCurrent: bool
    var queuedInputs: nat   // their number, which shares the capacity
    const maxReceipts: nat

    constructor (maxReceipts: nat)
      ensures receipts == map[] && generations == map[] && leaseCurrent && queuedInputs == 0
      ensures this.maxReceipts == maxReceipts
    {
      receipts := map[];
      generations := map[];
      leaseCurrent := true;
      queuedInputs := 0;
      this.maxReceipts := maxReceipts;
    }

    function Slot(key: ActionKey): Option<Receipt>
      reads this
    {
      if key in receipts then Some(receipts[key]) else None
    }

    function GenerationOf(conversation: Conversation): nat
      reads this
    {
      if conversation in generations then generations[conversation] else 0
    }

    /** Stores what an operation produced; a refused operation changes nothing. */
    twostate predicate Stores(key: ActionKey, new result: Result<Receipt, Exn>)
      reads this
    {
      && receipts == (if result.Ok? then old(receipts)[key := result.value] else old(receipts))
      && leaseCurrent == old(leaseCurrent) && queuedInputs == old(queuedInputs)
    }

    method ReserveEffect(key: ActionKey, payload: string, category: Category, phaseId: string,
                         conversation: Option<Conversation>)
      returns (result: Result<Receipt, Exn>)
      modifies this
      ensures Stores(key, result) && generations == old(generations)
      ensures result ==
              if !old(leaseCurrent) then Err(StaleExn)
              else if old(Slot(key)).None? && |old(receipts)| + old(queuedInputs) >= maxReceipts then Err(CapacityExn)
              else ReserveReceipt(old(Slot(key)), payload, category, phaseId,
                                  if conversation.Some? then Some(old(GenerationOf(conversation.value))) else None)
    {
      if !leaseCurrent { return Err(StaleExn); }
      if key in receipts {
        var existing := receipts[key];
        if existing.payload != payload { return Err(ConflictExn); }
        if existing.category != category { return Err(ConflictExn); }
        if existing.nativePhaseId != Some(phaseId) { return Err(ConflictExn); }
        return Ok(existing);
      }
      if |receipts| + queuedInputs >= maxReceipts { return Err(CapacityExn); }
      var generation: Option<int> := None;
      if conversation.Some? { generation := Some(GenerationOf(conversation.value)); }
      var receipt := Receipt(payload, category, Reserved, Some(phaseId), generation, None);
      if !ValidReceipt(receipt) { return Err(OtherExn); }
      receipts := receipts[key := receipt];
      return Ok(receipt);
    }

    method MarkNativeSideEffectStarted(key: ActionKey, payload: string)
      returns (result: Result<Receipt, Exn>, acquired: bool)
      modifies this
      ensures Stores(key, result) && generations == old(generations)
      ensures result == if !old(leaseCurrent) then Err(StaleExn) else MarkReceipt(old(Slot(key)), payload)
      ensures acquired == (old(leaseCurrent) && MarkAcquires(old(Slot(key)), payload))
    {
      if !leaseCurrent { return Err(StaleExn), false; }
      if key !in receipts { return Err(OtherExn), false; }
      var receipt := receipts[key];
      if receipt.payload != payload { return Err(ConflictExn), false; }
      acquired := receipt.phase.Reserved?;
      if acquired {
        receipt := receipt.(phase := Started);
        receipts := receipts[key := receipt];
      }
      result := Ok(receipt);
    }

    method RecordEffectOutcome(key: ActionKey, payload: string, phase: Phase, outcome: Outcome)
      returns (result: Result<Receipt, Exn>)
      modifies this
      ensures Stores(key, result) && generations == old(generations)
      ensures result ==
              if phase.Reserved? || (phase.Started? && !outcome.OutcomeUnknown?) then Err(OtherExn)
              else if !old(leaseCurrent) then Err(StaleExn)
              else RecordReceipt(old(Slot(key)), payload, phase, outcome)
    {
      if phase.Reserved? { return Err(OtherExn); }
      if phase.Started? && !outcome.OutcomeUnknown? { return Err(OtherExn); }
      if !leaseCurrent { return Err(StaleExn); }
      if key !in receipts { return Err(OtherExn); }
      var receipt := receipts[key];
      if receipt.payload != payload { return Err(ConflictExn); }
      if receipt.phase.Terminal? { return Ok(receipt); }
      if receipt.phase.Reserved? { return Err(OtherExn); }
      if phase.ResultKnown? && !(receipt.category.WorkflowCategory? && outcome.Succeeded?) { return Err(OtherExn); }
      if receipt.phase.ResultKnown? { return Err(OtherExn); }
      if receipt.category.WorkflowCategory? && phase.Terminal? && outcome.Succeeded? { return Err(OtherExn); }
      var updated := receipt.(phase := phase, outcome := Some(outcome));
      if !ValidReceipt(updated) { return Err(OtherExn); }
      receipts := receipts[key := updated];
      return Ok(updated);
    }

    method RecordEffectPreflightFailure(key: ActionKey, payload: string, error: ActionError)
      returns (result: Result<Receipt, Exn>)
      modifies this
      ensures Stores(key, result) && generations == old(generations)
      ensures result == if !old(leaseCurrent) then Err(StaleExn)
                        else PreflightFailureReceipt(old(Slot(key)), payload, error)
    {
      if !leaseCurrent { return Err(StaleExn); }
      if key !in receipts { return Err(OtherExn); }
      var receipt := receipts[key];
      if receipt.payload != payload { return Err(ConflictExn); }
      if !receipt.phase.Reserved? { return Ok(receipt); }
      var updated := receipt.(phase := Terminal, outcome := Some(Failed(error)));
      if !ValidReceipt(updated) { return Err(OtherExn); }
      receipts := receipts[key := updated];
      return Ok(updated);
    }

    /** One transaction: the binding generation moves exactly when the receipt becomes a terminal success. */
    method CommitWorkflowBinding(key: ActionKey, payload: string, conversation: Conversation,
                                 routeId: Option<RouteId>, routeConflict: bool)
      returns (result: Result<Receipt, Exn>)
      modifies this
      ensures Stores(key, result)
      ensures result == if !old(leaseCurrent) then Err(StaleExn)
                        else CommitReceipt(old(Slot(key)), payload, old(GenerationOf(conversation)),
                                           routeConflict, conversation, routeId)
      ensures generations ==
              if old(leaseCurrent)
                 && CommitBinds(old(Slot(key)), payload, old(GenerationOf(conversation)), routeConflict)
              then old(generations)[conversation := old(GenerationOf(conversation)) + 1]
              else old(generations)
    {
      if !leaseCurrent { return Err(StaleExn); }
      if key !in receipts { return Err(OtherExn); }
      var receipt := receipts[key];
      if receipt.payload != payload { return Err(ConflictExn); }
      if !receipt.category.WorkflowCategory? { return Err(ConflictExn); }
      if receipt.phase.Terminal? { return Ok(receipt); }
      if !receipt.phase.ResultKnown? || receipt.outcome.None? || !receipt.outcome.value.Succeeded? {
        return Err(OtherExn);
      }
      var created := receipt.outcome.value.value;
      var generation := GenerationOf(conversation);
      var outcome;
      if Some(generation as int) != receipt.bindingGeneration {
        outcome := Partial(created, ActionError(StaleBinding, None));
      } else if routeConflict {
        outcome := Partial(created, ActionError(ConflictCode, None));
      } else {
        generations := generations[conversation := generation + 1];
        outcome := Succeeded(created.(conversation := Some(conversation),
                                      bindingGeneration := Some(generation + 1),
                                      routeId := routeId));
      }
      receipt := receipt.(phase := Terminal, outcome := Some(outcome));
      receipts := receipts[key := receipt];
      return Ok(receipt);
    }
  }
}
