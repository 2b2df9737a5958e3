/**
  The durable effect executor as a state machine.  Every `await` of a native mutation or
  of a create-binding workflow is one program point; one step of a call runs up to its next
  `await`.  Any number of calls that share one action key are interleaved with each other,
  with process crashes and with other actions that move the binding generation.  Every store
  operation may succeed, fail before it applies, or fail (or be cancelled) after it applied.
 */
module EffectExecutor {
  import opened Identifiers
  import opened Wrappers
  import opened EffectReceipts

  type CallId = nat

  datatype WorkflowKind = CreateAndSelectProject | CreateAndBindThread

  datatype WorkflowRequest = WorkflowRequest(
    kind: WorkflowKind,
    conversation: Conversation,
    applicationId: string,
    projectId: Option<string>,
    foregroundRoute: bool)

  /** What the caller passed: the fingerprint's payload, and which optional callbacks it supplied. */
  datatype CallArgs =
    | NativeCall(payload: string, category: Category, hasPreflight: bool, hasReconcile: bool)
    | WorkflowCall(payload: string, request: WorkflowRequest,
                   hasPreflight: bool, hasReconcile: bool, hasCommitFence: bool)

  datatype Answer = Returned(outcome: Outcome) | Escaped(exn: Exn)

  /** The await at which a call is suspended. */
  datatype Pc =
    | AtReserve
    | AtPreflight
    | AtRecordPreflight(error: ActionError)
    | AtPreflightCancelRead
    | AtPreflightErrorRead
    | AtFence
    | AtFenceCancelRead
    | AtInvoke
    | AtRecordKnown(known: Outcome)
    | AtRecordRead(known: Outcome, cause: Exn)
    | AtPersistUnknown(reconciling: bool)
    | AtReconcile
    | AtRecordReconciled(known: Outcome)
    | AtReconciledRead(known: Outcome, cause: Exn)
    | AtReread
    | AtCommitFence(created: EffectValue)
    | AtCommit(created: EffectValue)
    | AtCommitRead(created: EffectValue, cause: Exn)
    | Done(answer: Answer)
    | Crashed

  /** `invoked` and `created` record what this call's own `invoke` did. */
  datatype Call = Call(args: CallArgs, pc: Pc, retries: nat, invoked: bool, created: Option<EffectValue>)

  /** The durable receipt and the binding generation, with the history that the theorems speak about. */
  datatype Shared = Shared(
    slot: Option<Receipt>,
    generation: nat,
    fenceHolder: Option<CallId>,
    invocations: nat,
    bindingCommits: nat,
    reportedFailures: set<ActionError>,
    reportedReferences: set<Option<StableReference>>)

  datatype Fault = NoFault | Before(exn: Exn) | After(exn: Exn)

  datatype NativeResult = Reports(outcome: Outcome) | ReportsNothing | Raises | IsCancelled

  datatype Choice =
    | StoreReplies(fault: Fault, routeConflict: bool)
    | ReadReplies(ok: bool)
    | PreflightAllows | PreflightDenies(error: ActionError) | PreflightMalformed | PreflightRaises | PreflightCancelled
    | NativeReplies(native: NativeResult)
    | FenceOpens | FenceCloses(error: ActionError) | FenceRaises(exn: Exn)

  // ---- Pure helpers of the executor ----

  function CategoryOf(args: CallArgs): Category {
    if args.NativeCall? then args.category else WorkflowCategory
  }

  function PhaseIdOf(args: CallArgs): string {
    if args.NativeCall? then "native" else "native_create"
  }

  function ConversationOf(args: CallArgs): Conversation {
    if args.WorkflowCall? then args.request.conversation else Conversation("", "")
  }

  /** The checks made on a request before anything is stored. */
  predicate ValidArgs(args: CallArgs) {
    match args
    case NativeCall(_, category, _, _) => category.NativeCategory? || category.RequestResponseCategory?
    case WorkflowCall(_, request, _, _, _) =>
      && ValidConversation(request.conversation)
      && ValidIdentifier(request.applicationId)
      && (match request.kind
          case CreateAndSelectProject => request.projectId.None?
          case CreateAndBindThread => request.projectId.Some? && ValidIdentifier(request.projectId.value))
  }

  predicate ValidKnown(outcome: Outcome) {
    match outcome
    case Succeeded(value) => ValidEffectValue(value)
    case Failed(_) => true
    case _ => false
  }

  predicate CreatedValueFits(request: WorkflowRequest, value: EffectValue) {
    && value.reference.Some?
    && var reference := value.reference.value;
       match request.kind
       case CreateAndSelectProject =>
         reference.kind == ProjectKind && reference.applicationId == request.applicationId
       case CreateAndBindThread =>
         && reference.kind == ThreadKind && request.projectId.Some?
         && reference.applicationId == request.applicationId
         && reference.projectId == request.projectId
  }

  predicate KnownFits(args: CallArgs, outcome: Outcome) {
    && ValidKnown(outcome)
    && (args.WorkflowCall? && outcome.Succeeded? ==> CreatedValueFits(args.request, outcome.value))
  }

  predicate HasRoute(request: WorkflowRequest) {
    request.kind.CreateAndBindThread? && request.foregroundRoute
  }

  function RouteIdFor(args: CallArgs, value: EffectValue): Option<RouteId> {
    if args.WorkflowCall? && HasRoute(args.request) && value.reference.Some?
    then Some(Derived(value.reference.value, args.request.conversation)) else None
  }

  function Unknown(code: ErrorCode): Outcome { OutcomeUnknown(ActionError(code, None)) }

  function FailedWith(code: ErrorCode): Answer { Returned(Failed(ActionError(code, None))) }

  /** `_required_outcome`. */
  function RequiredOutcome(receipt: Receipt): Answer {
    if receipt.outcome.Some? then Returned(receipt.outcome.value) else Escaped(OtherExn)
  }

  predicate CarriesReference(outcome: Outcome, reference: Option<StableReference>) {
    (outcome.Succeeded? || outcome.Partial?) && outcome.value.reference == reference
  }

  /** A store operation under a fault: the slot it leaves, and what its caller sees. */
  function Perform(slot: Option<Receipt>, result: Result<Receipt, Exn>, fault: Fault)
    : (Option<Receipt>, Result<Receipt, Exn>)
  {
    var applied := if result.Ok? then Some(result.value) else slot;
    match fault
    case NoFault => (applied, result)
    case Before(exn) => (slot, Err(exn))
    case After(exn) => (applied, Err(exn))
  }

  /** A shielded read: any failure, and a receipt of another payload, reads as nothing. */
  function ReadSlot(sh: Shared, call: Call, ok: bool): Option<Receipt> {
    if ok && sh.slot.Some? && sh.slot.value.payload == call.args.payload then sh.slot else None
  }

  predicate IsTerminal(read: Option<Receipt>) { read.Some? && read.value.phase.Terminal? }

  predicate IsResultKnown(read: Option<Receipt>) { read.Some? && read.value.phase.ResultKnown? }

  // ---- Where a call goes next ----

  /** `_commit_known_workflow` up to its first await. */
  function CommitKnown(args: CallArgs, receipt: Receipt): Pc {
    if receipt.outcome.None? || !receipt.outcome.value.Succeeded? || args.NativeCall? then Done(Escaped(OtherExn))
    else
      var created := receipt.outcome.value.value;
      if !CreatedValueFits(args.request, created)
      then Done(Returned(Partial(created, ActionError(StoreFailure, None))))
      else if !ValidReference(created.reference.value) then Done(Escaped(OtherExn))
      else if HasRoute(args.request) && args.hasCommitFence then AtCommitFence(created)
      else AtCommit(created)
  }

  /** What a workflow does with the outcome that `_reconcile_native` returned; a native call returns it. */
  function AfterReconcile(args: CallArgs, answer: Answer): Pc {
    if args.WorkflowCall? && answer.Returned? && answer.outcome.Succeeded? then AtReread else Done(answer)
  }

  function AfterReserve(args: CallArgs, receipt: Receipt): Pc {
    match receipt.phase
    case Terminal => Done(RequiredOutcome(receipt))
    case ResultKnown => CommitKnown(args, receipt)
    case Started => if args.hasReconcile then AtReconcile else AtPersistUnknown(true)
    case Reserved => if args.hasPreflight then AtPreflight else AtFence
  }

  function RecordedPhase(args: CallArgs, known: Outcome): Phase {
    if args.NativeCall? || known.Failed? then Terminal else ResultKnown
  }

  // ---- One step at each program point ----

  function StepReserve(sh: Shared, call: Call, fault: Fault): (Shared, Call) {
    if !ValidArgs(call.args) then (sh, call.(pc := Done(Escaped(OtherExn))))
    else
      var generation: Option<int> := if call.args.WorkflowCall? then Some(sh.generation) else None;
      var (slot, reply) := Perform(sh.slot, ReserveReceipt(sh.slot, call.args.payload, CategoryOf(call.args),
                                                           PhaseIdOf(call.args), generation), fault);
      var pc :=
        match reply
        case Ok(receipt) => AfterReserve(call.args, receipt)
        case Err(Cancelled) => Done(Escaped(Cancelled))
        case Err(ConflictExn) => Done(FailedWith(ConflictCode))
        case Err(CapacityExn) => Done(FailedWith(CapacityExhausted))
        case Err(StaleExn) => Done(FailedWith(StaleRuntime))
        case Err(_) => Done(FailedWith(StoreFailure));
      (sh.(slot := slot), call.(pc := pc))
  }

  function StepPreflight(call: Call, choice: Choice): Pc {
    match choice
    case PreflightAllows => AtFence
    case PreflightDenies(error) => AtRecordPreflight(error)
    case PreflightMalformed => Done(Escaped(OtherExn))
    case PreflightRaises => Done(FailedWith(StoreFailure))
    case PreflightCancelled => AtPreflightCancelRead
    case _ => call.pc
  }

  function StepRecordPreflight(sh: Shared, call: Call, error: ActionError, fault: Fault): (Shared, Call) {
    var (slot, reply) := Perform(sh.slot, PreflightFailureReceipt(sh.slot, call.args.payload, error), fault);
    var pc :=
      match reply
      case Ok(receipt) =>
        if receipt.phase.Terminal? then Done(RequiredOutcome(receipt))
        else Done(Returned(Unknown(NativeOutcomeUnknown)))
      case Err(Cancelled) => AtPreflightCancelRead
      case Err(StaleExn) => Done(FailedWith(StaleRuntime))
      case Err(_) => AtPreflightErrorRead;
    (sh.(slot := slot), call.(pc := pc))
  }

  function AfterPreflightCancelRead(read: Option<Receipt>): Pc {
    if IsTerminal(read) then Done(RequiredOutcome(read.value))
    else if read.Some? && !read.value.phase.Reserved? then Done(Returned(Unknown(NativeOutcomeUnknown)))
    else Done(Escaped(Cancelled))
  }

  function AfterPreflightErrorRead(read: Option<Receipt>): Pc {
    if IsTerminal(read) then Done(RequiredOutcome(read.value)) else Done(FailedWith(StoreFailure))
  }

  /** The durable fence.  A call that acquired it starts `invoke` at once; a call that lost the race begins again. */
  function StepFence(sh: Shared, id: CallId, call: Call, fault: Fault): (Shared, Call) {
    var acquires := MarkAcquires(sh.slot, call.args.payload);
    var (slot, reply) := Perform(sh.slot, MarkReceipt(sh.slot, call.args.payload), fault);
    var marked := sh.(slot := slot,
                      fenceHolder := if acquires && !fault.Before? then Some(id) else sh.fenceHolder);
    match reply
    case Ok(receipt) =>
      if receipt.phase.Reserved? then (marked, call.(pc := Done(FailedWith(StoreFailure))))
      else if acquires then (marked.(invocations := marked.invocations + 1), call.(pc := AtInvoke, invoked := true))
      else (marked, call.(pc := AtReserve, retries := call.retries + 1))
    case Err(Cancelled) => (marked, call.(pc := AtFenceCancelRead))
    case Err(StaleExn) => (marked, call.(pc := Done(FailedWith(StaleRuntime))))
    case Err(_) => (marked, call.(pc := Done(FailedWith(StoreFailure))))
  }

  function AfterFenceCancelRead(read: Option<Receipt>): Pc {
    if read.None? || read.value.phase.Reserved? then Done(Escaped(Cancelled))
    else if read.value.phase.Terminal? then Done(RequiredOutcome(read.value))
    else AtPersistUnknown(false)
  }

  /** The history of a valid native report. */
  function Report(sh: Shared, outcome: Outcome): Shared {
    match outcome
    case Succeeded(value) => sh.(reportedReferences := sh.reportedReferences + {value.reference})
    case Failed(error) => sh.(reportedFailures := sh.reportedFailures + {error})
    case _ => sh
  }

  function StepInvoke(sh: Shared, call: Call, native: NativeResult): (Shared, Call) {
    if native.Reports? && KnownFits(call.args, native.outcome)
    then
      var known := native.outcome;
      (Report(sh, known),
       call.(pc := AtRecordKnown(known),
             created := if call.args.WorkflowCall? && known.Succeeded? then Some(known.value) else None))
    else (sh, call.(pc := AtPersistUnknown(false)))
  }

  function StepRecordKnown(sh: Shared, call: Call, known: Outcome, fault: Fault): (Shared, Call) {
    var (slot, reply) := Perform(
      sh.slot, RecordReceipt(sh.slot, call.args.payload, RecordedPhase(call.args, known), known), fault);
    var pc :=
      match reply
      case Ok(receipt) =>
        if RecordedPhase(call.args, known).Terminal? then Done(RequiredOutcome(receipt))
        else CommitKnown(call.args, receipt)
      case Err(exn) => AtRecordRead(known, exn);
    (sh.(slot := slot), call.(pc := pc))
  }

  function AfterRecordRead(args: CallArgs, known: Outcome, cause: Exn, read: Option<Receipt>): Pc {
    if IsTerminal(read) then Done(RequiredOutcome(read.value))
    else if RecordedPhase(args, known).Terminal? || !known.Succeeded? then
      Done(Returned(Unknown(
        match cause case Cancelled => NativeOutcomeUnknown case StaleExn => StaleRuntime case _ => StoreFailure)))
    else
      match cause
      case Cancelled => Done(Returned(Partial(known.value, ActionError(StoreFailure, None))))
      case StaleExn => Done(Returned(Partial(known.value, ActionError(StaleRuntime, None))))
      case _ =>
        if IsResultKnown(read) then CommitKnown(args, read.value)
        else Done(Returned(Partial(known.value, ActionError(StoreFailure, None))))
  }

  /** `_persist_unknown`: an outcome in every case, the stored one if the receipt could be written or was terminal. */
  function StepPersistUnknown(sh: Shared, call: Call, reconciling: bool, fault: Fault): (Shared, Call) {
    var unknown := Unknown(NativeOutcomeUnknown);
    var (slot, reply) := Perform(sh.slot, RecordReceipt(sh.slot, call.args.payload, Started, unknown), fault);
    var answer := match reply case Ok(receipt) => RequiredOutcome(receipt) case Err(_) => Returned(unknown);
    (sh.(slot := slot), call.(pc := if reconciling then AfterReconcile(call.args, answer) else Done(answer)))
  }

  function StepReconcile(sh: Shared, call: Call, native: NativeResult): (Shared, Call) {
    if native.Reports? && KnownFits(call.args, native.outcome)
    then (Report(sh, native.outcome), call.(pc := AtRecordReconciled(native.outcome)))
    else (sh, call.(pc := AtPersistUnknown(true)))
  }

  function StepRecordReconciled(sh: Shared, call: Call, known: Outcome, fault: Fault): (Shared, Call) {
    var (slot, reply) := Perform(
      sh.slot, RecordReceipt(sh.slot, call.args.payload, RecordedPhase(call.args, known), known), fault);
    var pc :=
      match reply
      case Ok(receipt) => AfterReconcile(call.args, RequiredOutcome(receipt))
      case Err(exn) => AtReconciledRead(known, exn);
    (sh.(slot := slot), call.(pc := pc))
  }

  function AfterReconciledRead(args: CallArgs, known: Outcome, cause: Exn, read: Option<Receipt>): Pc {
    if IsTerminal(read) then AfterReconcile(args, RequiredOutcome(read.value))
    else
      var created := known.Succeeded? && args.WorkflowCall?;
      var answer :=
        match cause
        case Cancelled =>
          if created && IsResultKnown(read) then Returned(known)
          else if created then Returned(Partial(known.value, ActionError(StoreFailure, None)))
          else Returned(Unknown(NativeOutcomeUnknown))
        case StaleExn =>
          if created then Returned(Partial(known.value, ActionError(StaleRuntime, None)))
          else Returned(Unknown(StaleRuntime))
        case _ =>
          if created && IsResultKnown(read) then Returned(known) else Returned(Unknown(StoreFailure));
      AfterReconcile(args, answer)
  }

  /** The unguarded read after a reconciled success: its failure escapes. */
  function AfterReread(sh: Shared, call: Call, ok: bool): Pc {
    if !ok then Done(Escaped(OtherExn))
    else if sh.slot.None? then Done(Returned(Unknown(StoreFailure)))
    else if sh.slot.value.payload != call.args.payload then Done(Escaped(ConflictExn))
    else if sh.slot.value.phase.Terminal? then Done(RequiredOutcome(sh.slot.value))
    else CommitKnown(call.args, sh.slot.value)
  }

  /**
    An exit of the fence that raises after it closed has the same effect as FenceRaises, and after a commit as a
    fault After.
   */
  function StepCommitFence(call: Call, created: EffectValue, choice: Choice): Pc {
    match choice
    case FenceOpens => AtCommit(created)
    case FenceCloses(error) => Done(Returned(Partial(created, error)))
    case FenceRaises(exn) => AtCommitRead(created, exn)
    case _ => call.pc
  }

  function StepCommit(sh: Shared, call: Call, created: EffectValue, fault: Fault, routeConflict: bool): (Shared, Call) {
    var result := CommitReceipt(sh.slot, call.args.payload, sh.generation, routeConflict,
                                ConversationOf(call.args), RouteIdFor(call.args, created));
    var binds := CommitBinds(sh.slot, call.args.payload, sh.generation, routeConflict) && !fault.Before?;
    var (slot, reply) := Perform(sh.slot, result, fault);
    var pc :=
      match reply
      case Ok(receipt) => Done(RequiredOutcome(receipt))
      case Err(exn) => AtCommitRead(created, exn);
    (sh.(slot := slot,
         generation := if binds then sh.generation + 1 else sh.generation,
         bindingCommits := if binds then sh.bindingCommits + 1 else sh.bindingCommits),
     call.(pc := pc))
  }

  function AfterCommitRead(created: EffectValue, cause: Exn, read: Option<Receipt>): Pc {
    if IsTerminal(read) then Done(RequiredOutcome(read.value))
    else Done(Returned(Partial(created, ActionError(if cause.StaleExn? then StaleRuntime else StoreFailure, None))))
  }

  /** One step of one call.  A reply that does not belong to the await leaves everything as it is. */
  function Step(sh: Shared, id: CallId, call: Call, choice: Choice): (Shared, Call) {
    match choice
    case StoreReplies(fault, routeConflict) => StepStore(sh, id, call, fault, routeConflict)
    case ReadReplies(ok) => (sh, call.(pc := StepRead(sh, call, ok)))
    case NativeReplies(native) =>
      if call.pc.AtInvoke? then StepInvoke(sh, call, native)
      else if call.pc.AtReconcile? then StepReconcile(sh, call, native)
      else (sh, call)
    case _ =>
      (sh, call.(pc :=
        if call.pc.AtPreflight? then StepPreflight(call, choice)
        else if call.pc.AtCommitFence? then StepCommitFence(call, call.pc.created, choice)
        else call.pc))
  }

  function StepStore(sh: Shared, id: CallId, call: Call, fault: Fault, routeConflict: bool): (Shared, Call) {
    match call.pc
    case AtReserve => StepReserve(sh, call, fault)
    case AtRecordPreflight(error) => StepRecordPreflight(sh, call, error, fault)
    case AtFence => StepFence(sh, id, call, fault)
    case AtRecordKnown(known) => StepRecordKnown(sh, call, known, fault)
    case AtPersistUnknown(reconciling) => StepPersistUnknown(sh, call, reconciling, fault)
    case AtRecordReconciled(known) => StepRecordReconciled(sh, call, known, fault)
    case AtCommit(created) => StepCommit(sh, call, created, fault, routeConflict)
    case _ => (sh, call)
  }

  function StepRead(sh: Shared, call: Call, ok: bool): Pc {
    var read := ReadSlot(sh, call, ok);
    match call.pc
    case AtPreflightCancelRead => AfterPreflightCancelRead(read)
    case AtPreflightErrorRead => AfterPreflightErrorRead(read)
    case AtFenceCancelRead => AfterFenceCancelRead(read)
    case AtRecordRead(known, cause) => AfterRecordRead(call.args, known, cause, read)
    case AtReconciledRead(known, cause) => AfterReconciledRead(call.args, known, cause, read)
    case AtReread => AfterReread(sh, call, ok)
    case AtCommitRead(created, cause) => AfterCommitRead(created, cause, read)
    case _ => call.pc
  }

  // ---- Whole systems and their runs ----

  datatype System = System(shared: Shared, calls: map<CallId, Call>)

  datatype Event =
    | Advance(id: CallId, choice: Choice)
    | Crash(id: CallId)
    | Rebind   // another action moves the Conversation's binding generation

  function Initial(generation: nat, args: map<CallId, CallArgs>): System {
    System(Shared(None, generation, None, 0, 0, {}, {}),
           map id | id in args :: Call(args[id], AtReserve, 0, false, None))
  }

  function Apply(s: System, event: Event): System {
    match event
    case Advance(id, choice) =>
      if id !in s.calls then s
      else
        var (shared, call) := Step(s.shared, id, s.calls[id], choice);
        System(shared, s.calls[id := call])
    case Crash(id) =>
      if id in s.calls && !s.calls[id].pc.Done? then s.(calls := s.calls[id := s.calls[id].(pc := Crashed)]) else s
    case Rebind => s.(shared := s.shared.(generation := s.shared.generation + 1))
  }

  function Run(s: System, events: seq<Event>): System
    decreases |events|
  {
    if events == [] then s else Run(Apply(s, events[0]), events[1..])
  }
}
