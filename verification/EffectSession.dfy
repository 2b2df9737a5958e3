/**
  The executor's code between two awaits, on the in-memory store.  Each method resumes a
  call at the await it is suspended at, performs the store operation that it awaits unless a fault comes
  first, and goes on to its next await.  Every method is proved to take the step of EffectExecutor.
 */
module EffectSession {
  import opened Wrappers
  import opened EffectReceipts
  import opened EffectExecutor

  /** The store's own refusal comes before the operation applies, whatever else happens. */
  function Effective(refusal: Option<Exn>, fault: Fault): Fault {
    match fault
    case Before(exn) => fault
    case After(exn) => if refusal.Some? then Before(exn) else fault
    case NoFault => if refusal.Some? then Before(refusal.value) else fault
  }

  /** What the awaiting call sees of a store operation that was performed. */
  function Seen(result: Result<Receipt, Exn>, fault: Fault): Result<Receipt, Exn> {
    if fault.After? then Err(fault.exn) else result
  }

  class EffectCall {
    const args: CallArgs
    const key: ActionKey
    const store: GatewayStore
    var pc: Pc
    var retries: nat
    ghost var invoked: bool
    ghost var created: Option<EffectValue>

    constructor (args: CallArgs, key: ActionKey, store: GatewayStore)
      ensures this.args == args && this.key == key && this.store == store
      ensures Fields() == Call(args, AtReserve, 0, false, None)
    {
      this.args, this.key, this.store := args, key, store;
      pc, retries, invoked, created := AtReserve, 0, false, None;
    }

    ghost function Fields(): Call
      reads this
    {
      Call(args, pc, retries, invoked, created)
    }

    /** The shared state's receipt and binding generation are those that the store holds for this call. */
    ghost predicate Represents(sh: Shared)
      reads this, store
    {
      sh.slot == store.Slot(key) && sh.generation == store.GenerationOf(ConversationOf(args))
    }

    ghost function Refusal(): Option<Exn>
      reads store
    {
      if !store.leaseCurrent then Some(StaleExn) else None
    }

    ghost function ReserveRefusal(): Option<Exn>
      reads store
    {
      if !store.leaseCurrent then Some(StaleExn)
      else if store.Slot(key).None? && |store.receipts| + store.queuedInputs >= store.maxReceipts then Some(CapacityExn)
      else None
    }

    /** Nothing but this action's receipt and its Conversation's generation has changed. */
    twostate predicate OthersUntouched()
      reads this, store
    {
      && store.leaseCurrent == old(store.leaseCurrent) && store.queuedInputs == old(store.queuedInputs)
      && (forall k | k != key :: store.Slot(k) == old(store.Slot(k)))
      && (forall c | c != ConversationOf(args) :: store.GenerationOf(c) == old(store.GenerationOf(c)))
    }

    /** Reserves the effect under a fault, and returns what the call sees of it. */
    method Reserve(fault: Fault, ghost sh: Shared) returns (reply: Result<Receipt, Exn>)
      requires Represents(sh)
      modifies store
      ensures var generation: Option<int> := if args.WorkflowCall? then Some(sh.generation) else None;
              var result := ReserveReceipt(sh.slot, args.payload, CategoryOf(args), PhaseIdOf(args), generation);
              var (slot, seen) := Perform(sh.slot, result, Effective(old(ReserveRefusal()), fault));
              reply == seen && Represents(sh.(slot := slot)) && OthersUntouched()
    {
      if fault.Before? {
        return Err(fault.exn);
      }
      var conversation := if args.WorkflowCall? then Some(args.request.conversation) else None;
      var result := store.ReserveEffect(key, args.payload, CategoryOf(args), PhaseIdOf(args), conversation);
      reply := Seen(result, fault);
    }

    method ResumeReserve(fault: Fault, ghost sh: Shared)
      requires pc.AtReserve? && ValidArgs(args) && Represents(sh)
      modifies this, store
      ensures var after := StepReserve(sh, old(Fields()), Effective(old(ReserveRefusal()), fault));
              Fields() == after.1 && Represents(after.0) && OthersUntouched()
    {
      var reply := Reserve(fault, sh);
      if reply.Err? {
        match reply.error {
          case Cancelled => pc := Done(Escaped(Cancelled));
          case ConflictExn => pc := Done(FailedWith(ConflictCode));
          case CapacityExn => pc := Done(FailedWith(CapacityExhausted));
          case StaleExn => pc := Done(FailedWith(StaleRuntime));
          case _ => pc := Done(FailedWith(StoreFailure));
        }
        return;
      }
      var receipt := reply.value;
      if receipt.phase.Terminal? {
        pc := Done(RequiredOutcome(receipt));
      } else if receipt.phase.ResultKnown? {
        pc := CommitKnown(args, receipt);
      } else if receipt.phase.Started? {
        pc := if args.hasReconcile then AtReconcile else AtPersistUnknown(true);
      } else {
        pc := if args.hasPreflight then AtPreflight else AtFence;
      }
    }

    method ResumeRecordPreflight(fault: Fault, ghost sh: Shared)
      requires pc.AtRecordPreflight? && Represents(sh)
      modifies this, store
      ensures var after := StepRecordPreflight(sh, old(Fields()), old(pc).error, Effective(old(Refusal()), fault));
              Fields() == after.1 && Represents(after.0) && OthersUntouched()
    {
      var reply: Result<Receipt, Exn>;
      if fault.Before? {
        reply := Err(fault.exn);
      } else {
        var result := store.RecordEffectPreflightFailure(key, args.payload, pc.error);
        reply := Seen(result, fault);
      }
      if reply.Ok? {
        pc := if reply.value.phase.Terminal? then Done(RequiredOutcome(reply.value))
              else Done(Returned(Unknown(NativeOutcomeUnknown)));
      } else if reply.error.Cancelled? {
        pc := AtPreflightCancelRead;
      } else if reply.error.StaleExn? {
        pc := Done(FailedWith(StaleRuntime));
      } else {
        pc := AtPreflightErrorRead;
      }
    }

    /** Marks the native side effect as started under a fault, and returns what the call sees of it. */
    method Mark(fault: Fault, ghost sh: Shared) returns (reply: Result<Receipt, Exn>, acquired: bool)
      requires Represents(sh)
      modifies store
      ensures var effective := Effective(old(Refusal()), fault);
              var (slot, seen) := Perform(sh.slot, MarkReceipt(sh.slot, args.payload), effective);
              && reply == seen && Represents(sh.(slot := slot)) && OthersUntouched()
              && (reply.Ok? ==> !reply.value.phase.Reserved? && acquired == MarkAcquires(sh.slot, args.payload))
    {
      if fault.Before? {
        return Err(fault.exn), false;
      }
      var result;
      result, acquired := store.MarkNativeSideEffectStarted(key, args.payload);
      reply := Seen(result, fault);
    }

    /** The durable fence; true exactly if the call goes on to start `invoke`. */
    method ResumeFence(id: CallId, fault: Fault, ghost sh: Shared) returns (invokes: bool)
      requires pc.AtFence? && Represents(sh)
      modifies this, store
      ensures var after := StepFence(sh, id, old(Fields()), Effective(old(Refusal()), fault));
              && Fields() == after.1 && Represents(after.0) && OthersUntouched()
              && (invokes <==> after.0.invocations == sh.invocations + 1)
    {
      invokes := false;
      var reply, acquired := Mark(fault, sh);
      if reply.Err? {
        match reply.error {
          case Cancelled => pc := AtFenceCancelRead;
          case StaleExn => pc := Done(FailedWith(StaleRuntime));
          case _ => pc := Done(FailedWith(StoreFailure));
        }
        return;
      }
      // The receipt is past RESERVED, so the check that the fence advanced never fires.
      if acquired {
        pc, invoked, invokes := AtInvoke, true, true;
      } else {
        pc, retries := AtReserve, retries + 1;
      }
    }

    /** `invoke` has returned, raised or been cancelled. */
    method ResumeInvoke(native: NativeResult, ghost sh: Shared)
      requires pc.AtInvoke? && Represents(sh)
      modifies this
      ensures var after := StepInvoke(sh, old(Fields()), native); Fields() == after.1 && Represents(after.0)
    {
      if native.Reports? && KnownFits(args, native.outcome) {
        created := if args.WorkflowCall? && native.outcome.Succeeded? then Some(native.outcome.value) else None;
        pc := AtRecordKnown(native.outcome);
      } else {
        pc := AtPersistUnknown(false);
      }
    }

    method ResumeReconcile(native: NativeResult, ghost sh: Shared)
      requires pc.AtReconcile? && Represents(sh)
      modifies this
      ensures var after := StepReconcile(sh, old(Fields()), native); Fields() == after.1 && Represents(after.0)
    {
      if native.Reports? && KnownFits(args, native.outcome) {
        pc := AtRecordReconciled(native.outcome);
      } else {
        pc := AtPersistUnknown(true);
      }
    }

    /** Records an outcome under a fault, and returns what the call sees of it. */
    method Record(phase: Phase, outcome: Outcome, fault: Fault, ghost sh: Shared) returns (reply: Result<Receipt, Exn>)
      requires Represents(sh) && !phase.Reserved? && (phase.Started? ==> outcome.OutcomeUnknown?)
      modifies store
      ensures var (slot, seen) := Perform(sh.slot, RecordReceipt(sh.slot, args.payload, phase, outcome),
                                          Effective(old(Refusal()), fault));
              reply == seen && Represents(sh.(slot := slot)) && OthersUntouched()
    {
      if fault.Before? {
        return Err(fault.exn);
      }
      var result := store.RecordEffectOutcome(key, args.payload, phase, outcome);
      reply := Seen(result, fault);
    }

    method ResumeRecordKnown(fault: Fault, ghost sh: Shared)
      requires pc.AtRecordKnown? && Represents(sh)
      modifies this, store
      ensures var after := StepRecordKnown(sh, old(Fields()), old(pc).known, Effective(old(Refusal()), fault));
              Fields() == after.1 && Represents(after.0) && OthersUntouched()
    {
      var known := pc.known;
      var terminal := args.NativeCall? || known.Failed?;
      var reply := Record(if terminal then Terminal else ResultKnown, known, fault, sh);
      if reply.Err? {
        pc := AtRecordRead(known, reply.error);
      } else if terminal {
        pc := Done(RequiredOutcome(reply.value));
      } else {
        pc := CommitKnown(args, reply.value);
      }
    }

    method ResumeRecordReconciled(fault: Fault, ghost sh: Shared)
      requires pc.AtRecordReconciled? && Represents(sh)
      modifies this, store
      ensures var after := StepRecordReconciled(sh, old(Fields()), old(pc).known, Effective(old(Refusal()), fault));
              Fields() == after.1 && Represents(after.0) && OthersUntouched()
    {
      var known := pc.known;
      var terminal := args.NativeCall? || known.Failed?;
      var reply := Record(if terminal then Terminal else ResultKnown, known, fault, sh);
      if reply.Err? {
        pc := AtReconciledRead(known, reply.error);
      } else {
        pc := AfterReconcile(args, RequiredOutcome(reply.value));
      }
    }

    method ResumePersistUnknown(fault: Fault, ghost sh: Shared)
      requires pc.AtPersistUnknown? && Represents(sh)
      modifies this, store
      ensures var after := StepPersistUnknown(sh, old(Fields()), old(pc).reconciling, Effective(old(Refusal()), fault));
              Fields() == after.1 && Represents(after.0) && OthersUntouched()
    {
      var unknown := Unknown(NativeOutcomeUnknown);
      var reply := Record(Started, unknown, fault, sh);
      var answer := if reply.Ok? then RequiredOutcome(reply.value) else Returned(unknown);
      pc := if pc.reconciling then AfterReconcile(args, answer) else Done(answer);
    }

    method ResumeCommit(fault: Fault, routeConflict: bool, ghost sh: Shared)
      requires pc.AtCommit? && args.WorkflowCall? && Represents(sh)
      modifies this, store
      ensures var after :=
                StepCommit(sh, old(Fields()), old(pc).created, Effective(old(Refusal()), fault), routeConflict);
              Fields() == after.1 && Represents(after.0) && OthersUntouched()
    {
      var value := pc.created;
      var reply: Result<Receipt, Exn>;
      if fault.Before? {
        reply := Err(fault.exn);
      } else {
        var result := store.CommitWorkflowBinding(key, args.payload, args.request.conversation, RouteIdFor(args, value),
                                                  routeConflict);
        reply := Seen(result, fault);
      }
      pc := if reply.Ok? then Done(RequiredOutcome(reply.value)) else AtCommitRead(value, reply.error);
    }

    /** A shielded read: a failure, and a receipt of another payload, reads as nothing. */
    method ReadReceipt(ok: bool, ghost sh: Shared) returns (read: Option<Receipt>)
      requires Represents(sh)
      ensures read == ReadSlot(sh, Fields(), ok)
    {
      if ok && key in store.receipts && store.receipts[key].payload == args.payload {
        return Some(store.receipts[key]);
      }
      read := None;
    }

    /** The read after a failed or cancelled operation has returned. */
    method ResumeRead(ok: bool, ghost sh: Shared)
      requires Represents(sh)
      requires pc.AtPreflightCancelRead? || pc.AtPreflightErrorRead? || pc.AtFenceCancelRead? || pc.AtRecordRead?
               || pc.AtReconciledRead? || pc.AtCommitRead?
      modifies this
      ensures Fields() == old(Fields()).(pc := StepRead(sh, old(Fields()), ok))
    {
      var read := ReadReceipt(ok, sh);
      if read.Some? && read.value.phase.Terminal? {
        var answer := RequiredOutcome(read.value);
        pc := if pc.AtReconciledRead? then AfterReconcile(args, answer) else Done(answer);
        return;
      }
      match pc {
        case AtPreflightCancelRead =>
          pc := if read.Some? && !read.value.phase.Reserved? then Done(Returned(Unknown(NativeOutcomeUnknown)))
                else Done(Escaped(Cancelled));
        case AtPreflightErrorRead => pc := Done(FailedWith(StoreFailure));
        case AtFenceCancelRead =>
          pc := if read.None? || read.value.phase.Reserved? then Done(Escaped(Cancelled)) else AtPersistUnknown(false);
        case AtRecordRead(known, cause) => pc := AfterRecordRead(args, known, cause, read);
        case AtReconciledRead(known, cause) => pc := AfterReconciledRead(args, known, cause, read);
        case AtCommitRead(value, cause) =>
          pc := Done(Returned(Partial(value,
            ActionError(if cause.StaleExn? then StaleRuntime else StoreFailure, None))));
      }
    }

    /** The unguarded read after a reconciled success. */
    method ResumeReread(ok: bool, ghost sh: Shared)
      requires pc.AtReread? && Represents(sh)
      modifies this
      ensures Fields() == old(Fields()).(pc := StepRead(sh, old(Fields()), ok))
    {
      if !ok {
        pc := Done(Escaped(OtherExn));
      } else if key !in store.receipts {
        pc := Done(Returned(Unknown(StoreFailure)));
      } else {
        var receipt := store.receipts[key];
        if receipt.payload != args.payload {
          pc := Done(Escaped(ConflictExn));
        } else if receipt.phase.Terminal? {
          pc := Done(RequiredOutcome(receipt));
        } else {
          pc := CommitKnown(args, receipt);
        }
      }
    }
  }
}
