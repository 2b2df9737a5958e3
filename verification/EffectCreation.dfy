/**
  A created resource is not lost.  If a workflow call's own `invoke` returned a valid created
  reference, that call should answer Succeeded or Partial with it under every later fault.
  This holds exactly when no other call of the same workflow supplies a reconciler.
 */
module EffectCreation {
  import opened Wrappers
  import opened EffectReceipts
  import opened EffectExecutor
  import opened EffectSafety

  /** Another valid workflow call with the same fingerprint that supplies `reconcile`. */
  predicate IsRival(args: map<CallId, CallArgs>, id: CallId, other: CallId)
    requires id in args
  {
    && other in args && other != id
    && args[other].WorkflowCall? && ValidArgs(args[other])
    && args[other].payload == args[id].payload
    && args[other].hasReconcile
  }

  predicate HasRival(args: map<CallId, CallArgs>, id: CallId)
    requires id in args
  {
    exists other | other in args :: IsRival(args, id, other)
  }

  /** If the call created something and has finished, its answer carries the created reference. */
  predicate KeepsCreation(s: System, id: CallId) {
    id in s.calls && s.calls[id].created.Some? && s.calls[id].pc.Done? ==>
      var answer := s.calls[id].pc.answer;
      answer.Returned? && CarriesReference(answer.outcome, s.calls[id].created.value.reference)
  }

  // ---- Without a rival, only the creating call moves the receipt out of the started phase ----

  /** The receipt holds nothing but this creation. */
  ghost predicate SlotCarries(slot: Option<Receipt>, created: EffectValue) {
    && slot.Some? && !slot.value.phase.Reserved?
    && (slot.value.phase.ResultKnown? ==> slot.value.outcome == Some(Succeeded(created)))
    && (slot.value.phase.Terminal? ==>
          slot.value.outcome.Some? && CarriesReference(slot.value.outcome.value, created.reference))
  }

  ghost predicate CreationInv(sh: Shared, call: Call) {
    && (call.pc.AtInvoke? ==> sh.slot.Some? && sh.slot.value.phase.Started? && call.created.None?)
    && (call.created.Some? ==>
          var created := call.created.value;
          && call.invoked && call.args.WorkflowCall? && SlotCarries(sh.slot, created)
          && (match call.pc
              case AtRecordKnown(known) => known == Succeeded(created) && sh.slot.value.phase.Started?
              case AtRecordRead(known, _) => known == Succeeded(created)
              case AtCommitFence(v) => v == created && !sh.slot.value.phase.Started?
              case AtCommit(v) => v == created && !sh.slot.value.phase.Started?
              case AtCommitRead(v, _) => v == created
              case Done(answer) => answer.Returned? && CarriesReference(answer.outcome, created.reference)
              case Crashed => true
              case _ => false))
  }

  /** A step that records no native outcome leaves the started phase alone and keeps a known creation. */
  lemma QuietStep(sh: Shared, id: CallId, call: Call, choice: Choice, created: EffectValue)
    requires SharedInv(sh) && CallInv(sh, id, call) && PastFence(sh)
    requires !call.pc.AtRecordKnown? && !call.pc.AtRecordReconciled?
    ensures var after := Step(sh, id, call, choice).0;
            && (sh.slot.value.phase.Started? ==> after.slot.Some? && after.slot.value.phase.Started?)
            && (SlotCarries(sh.slot, created) ==> SlotCarries(after.slot, created))
  {
    if choice.StoreReplies? {
      QuietStore(sh, id, call, choice.fault, choice.routeConflict, created);
    }
  }

  lemma QuietStore(sh: Shared, id: CallId, call: Call, fault: Fault, routeConflict: bool, created: EffectValue)
    requires SharedInv(sh) && CallInv(sh, id, call) && PastFence(sh)
    requires !call.pc.AtRecordKnown? && !call.pc.AtRecordReconciled?
    ensures var after := StepStore(sh, id, call, fault, routeConflict).0;
            && (sh.slot.value.phase.Started? ==> after.slot.Some? && after.slot.value.phase.Started?)
            && (SlotCarries(sh.slot, created) ==> SlotCarries(after.slot, created))
  {
    var after := StepStore(sh, id, call, fault, routeConflict);
    match call.pc
    case AtReserve => assert after == StepReserve(sh, call, fault); assert after.0.slot == sh.slot;
    case AtRecordPreflight(error) =>
      assert after == StepRecordPreflight(sh, call, error, fault);
      assert after.0.slot == sh.slot;
    case AtFence => assert after == StepFence(sh, id, call, fault); assert after.0.slot == sh.slot;
    case AtPersistUnknown(reconciling) => assert after == StepPersistUnknown(sh, call, reconciling, fault);
    case AtCommit(v) => assert after == StepCommit(sh, call, v, fault, routeConflict);
    case _ =>
  }

  lemma OwnRecord(sh: Shared, id: CallId, call: Call, known: Outcome, fault: Fault)
    requires SharedInv(sh) && CallInv(sh, id, call) && CreationInv(sh, call) && call.pc == AtRecordKnown(known)
    ensures var after := StepRecordKnown(sh, call, known, fault); CreationInv(after.0, after.1)
  {
  }

  lemma OwnCommit(sh: Shared, id: CallId, call: Call, v: EffectValue, fault: Fault, routeConflict: bool)
    requires SharedInv(sh) && CallInv(sh, id, call) && CreationInv(sh, call) && call.pc == AtCommit(v)
    ensures var after := StepCommit(sh, call, v, fault, routeConflict); CreationInv(after.0, after.1)
  {
  }

  lemma OwnRead(sh: Shared, id: CallId, call: Call, ok: bool)
    requires SharedInv(sh) && CallInv(sh, id, call) && CreationInv(sh, call)
    ensures CreationInv(sh, call.(pc := StepRead(sh, call, ok)))
  {
  }

  lemma OwnStore(sh: Shared, id: CallId, call: Call, fault: Fault, routeConflict: bool)
    requires SharedInv(sh) && CallInv(sh, id, call) && CreationInv(sh, call)
    ensures var after := StepStore(sh, id, call, fault, routeConflict); CreationInv(after.0, after.1)
  {
    var after := StepStore(sh, id, call, fault, routeConflict);
    match call.pc
    case AtReserve =>
      assert after == StepReserve(sh, call, fault);
      assert !after.1.pc.AtInvoke? && after.1.created == call.created;
    case AtRecordPreflight(error) => assert after == StepRecordPreflight(sh, call, error, fault);
    case AtFence => assert after == StepFence(sh, id, call, fault);
    case AtRecordKnown(known) =>
      OwnRecord(sh, id, call, known, fault);
      assert after == StepRecordKnown(sh, call, known, fault);
    case AtPersistUnknown(reconciling) => assert after == StepPersistUnknown(sh, call, reconciling, fault);
    case AtRecordReconciled(known) => assert after == StepRecordReconciled(sh, call, known, fault);
    case AtCommit(v) =>
      OwnCommit(sh, id, call, v, fault, routeConflict);
      assert after == StepCommit(sh, call, v, fault, routeConflict);
    case _ =>
  }

  lemma OwnStep(sh: Shared, id: CallId, call: Call, choice: Choice)
    requires SharedInv(sh) && CallInv(sh, id, call) && CreationInv(sh, call)
    ensures var after := Step(sh, id, call, choice); CreationInv(after.0, after.1)
  {
    match choice
    case StoreReplies(fault, routeConflict) => OwnStore(sh, id, call, fault, routeConflict);
    case ReadReplies(ok) => OwnRead(sh, id, call, ok);
    case _ =>
  }

  ghost predicate SystemCreationInv(s: System, args: map<CallId, CallArgs>, id: CallId)
    requires id in args
  {
    && args[id].WorkflowCall?
    && SystemInv(s)
    && s.calls.Keys == args.Keys
    && (forall i | i in args :: s.calls[i].args == args[i])
    && CreationInv(s.shared, s.calls[id])
  }

  lemma OtherStep(sh: Shared, id: CallId, call: Call, other: CallId, otherCall: Call, choice: Choice)
    requires SharedInv(sh) && CallInv(sh, id, call) && CreationInv(sh, call)
    requires CallInv(sh, other, otherCall) && other != id && (call.invoked ==> !otherCall.pc.AtRecordReconciled?)
    ensures CreationInv(Step(sh, other, otherCall, choice).0, call)
  {
    if call.invoked {
      var created := if call.created.Some? then call.created.value else EffectValue(None, None, None, None);
      QuietStep(sh, other, otherCall, choice, created);
      StepKeeps(sh, other, otherCall, choice);
    }
  }

  lemma ApplyKeepsCreation(s: System, args: map<CallId, CallArgs>, id: CallId, event: Event)
    requires id in args && !HasRival(args, id) && SystemCreationInv(s, args, id)
    ensures SystemCreationInv(Apply(s, event), args, id)
  {
    ApplyKeeps(s, event);
    ApplyKeepsArgs(s, event);
    ApplyKeepsOne(s, args, id, event);
  }

  lemma ApplyKeepsArgs(s: System, event: Event)
    ensures Apply(s, event).calls.Keys == s.calls.Keys
    ensures forall i | i in s.calls :: Apply(s, event).calls[i].args == s.calls[i].args
  {
    if event.Advance? && event.id in s.calls {
      StepKeepsArgs(s.shared, event.id, s.calls[event.id], event.choice);
    }
  }

  lemma ApplyKeepsOne(s: System, args: map<CallId, CallArgs>, id: CallId, event: Event)
    requires id in args && !HasRival(args, id) && SystemCreationInv(s, args, id)
    ensures CreationInv(Apply(s, event).shared, Apply(s, event).calls[id])
  {
    assert CallInv(s.shared, id, s.calls[id]);
    if event.Advance? && event.id in args {
      var call := s.calls[event.id];
      assert CallInv(s.shared, event.id, call);
      if event.id == id {
        OwnStep(s.shared, id, call, event.choice);
      } else {
        OnlyRivalsRecordReconciled(s, args, id, event.id);
        OtherStep(s.shared, id, s.calls[id], event.id, call, event.choice);
      }
    }
  }

  lemma OnlyRivalsRecordReconciled(s: System, args: map<CallId, CallArgs>, id: CallId, other: CallId)
    requires id in args && other in args && other != id && SystemCreationInv(s, args, id)
    ensures s.calls[id].invoked && s.calls[other].pc.AtRecordReconciled? ==> IsRival(args, id, other)
  {
    assert CallInv(s.shared, id, s.calls[id]) && CallInv(s.shared, other, s.calls[other]);
  }

  lemma StepKeepsArgs(sh: Shared, id: CallId, call: Call, choice: Choice)
    ensures Step(sh, id, call, choice).1.args == call.args
  {
  }

  lemma {:induction false} RunKeepsCreation(s: System, args: map<CallId, CallArgs>, id: CallId, events: seq<Event>)
    requires id in args && !HasRival(args, id) && SystemCreationInv(s, args, id)
    ensures SystemCreationInv(Run(s, events), args, id)
    decreases |events|
  {
    if events != [] {
      ApplyKeepsCreation(s, args, id, events[0]);
      RunKeepsCreation(Apply(s, events[0]), args, id, events[1..]);
    }
  }

  // ---- With a rival, a run loses the creation ----

  function CreatedFor(request: WorkflowRequest): EffectValue {
    match request.kind
    case CreateAndSelectProject =>
      EffectValue(Some(StableReference(ProjectKind, request.applicationId, Some("p"), None, None, None)),
          None, None, None)
    case CreateAndBindThread =>
      EffectValue(Some(StableReference(ThreadKind, request.applicationId, request.projectId, Some("t"), None, None)),
          None, None, None)
  }

  const REJECTED := ActionError(NativeRejected, None)

  /** The creator reserves, passes its preflight and the fence, and its `invoke` reports the creation. */
  function CreatorEvents(id: CallId, created: EffectValue): seq<Event> {
    [ Advance(id, StoreReplies(NoFault, false)), Advance(id, PreflightAllows),
      Advance(id, StoreReplies(NoFault, false)),
      Advance(id, NativeReplies(Reports(Succeeded(created)))) ]
  }

  /** Before the creator records its result, the rival's reconciler reports a failure, which is recorded first. */
  function RivalEvents(id: CallId, rival: CallId): seq<Event> {
    [ Advance(rival, StoreReplies(NoFault, false)), Advance(rival, NativeReplies(Reports(Failed(REJECTED)))),
      Advance(rival, StoreReplies(NoFault, false)), Advance(id, StoreReplies(NoFault, false)) ]
  }

  lemma {:induction false} RunAppends(s: System, a: seq<Event>, b: seq<Event>)
    ensures Run(s, a + b) == Run(Run(s, a), b)
    decreases |a|
  {
    if a == [] {
      assert a + b == b;
    } else {
      assert (a + b)[0] == a[0] && (a + b)[1..] == a[1..] + b;
      RunAppends(Apply(s, a[0]), a[1..], b);
    }
  }

  lemma RunOfFour(s: System, a: Event, b: Event, c: Event, d: Event)
    ensures Run(s, [a, b, c, d]) == Apply(Apply(Apply(Apply(s, a), b), c), d)
  {
    assert [a, b, c, d][1..] == [b, c, d] && [b, c, d][1..] == [c, d] && [c, d][1..] == [d] && [d][1..] == [];
    var s1 := Apply(s, a);
    var s2 := Apply(s1, b);
    var s3 := Apply(s2, c);
    assert Run(s, [a, b, c, d]) == Run(s1, [b, c, d]) == Run(s2, [c, d]) == Run(s3, [d]) == Run(Apply(s3, d), []);
  }

  lemma CreatorRuns(s: System, id: CallId, created: EffectValue)
    requires id in s.calls && s.calls[id].args.WorkflowCall? && ValidArgs(s.calls[id].args)
    requires s.shared.slot.None? && s.calls[id].pc.AtReserve?
    requires KnownFits(s.calls[id].args, Succeeded(created))
    ensures var after := Run(s, CreatorEvents(id, created));
            && after.calls == s.calls[id := s.calls[id].(
                 pc := AtRecordKnown(Succeeded(created)), invoked := true, created := Some(created))]
            && after.shared.slot == Some(Receipt(
                 s.calls[id].args.payload, WorkflowCategory, Started, Some("native_create"),
                                                 Some(s.shared.generation), None))
  {
    var args := s.calls[id].args;
    var es := CreatorEvents(id, created);
    RunOfFour(s, es[0], es[1], es[2], es[3]);
    var s1 := Apply(s, es[0]);
    assert s1.shared.slot == Some(Receipt(
        args.payload, WorkflowCategory, Reserved, Some("native_create"), Some(s.shared.generation), None));
    assert s1.calls[id] == s.calls[id].(pc := if args.hasPreflight then AtPreflight else AtFence);
    var s2 := Apply(s1, es[1]);
    assert s2.calls[id] == s.calls[id].(pc := AtFence);
    var s3 := Apply(s2, es[2]);
    assert s3.calls[id] == s.calls[id].(pc := AtInvoke, invoked := true);
  }

  function StartedReceipt(payload: string, generation: nat): Receipt {
    Receipt(payload, WorkflowCategory, Started, Some("native_create"), Some(generation), None)
  }

  /** The rival finds the started receipt and goes on to reconcile. */
  lemma RivalEnters(s: System, rival: CallId, generation: nat)
    requires rival in s.calls && s.calls[rival].pc.AtReserve?
    requires s.calls[rival].args.WorkflowCall? && ValidArgs(s.calls[rival].args) && s.calls[rival].args.hasReconcile
    requires s.shared.slot == Some(StartedReceipt(s.calls[rival].args.payload, generation))
    ensures var after := Apply(s, Advance(rival, StoreReplies(NoFault, false)));
            && after.shared.slot == s.shared.slot
            && after.calls == s.calls[rival := s.calls[rival].(pc := after.calls[rival].pc)]
            && after.calls[rival].pc.AtReconcile?
  {
  }

  lemma RivalReconciles(s: System, rival: CallId)
    requires rival in s.calls && s.calls[rival].pc.AtReconcile? && s.calls[rival].args.WorkflowCall?
    ensures var after := Apply(s, Advance(rival, NativeReplies(Reports(Failed(REJECTED)))));
            && after.shared.slot == s.shared.slot
            && after.calls == s.calls[rival := s.calls[rival].(pc := AtRecordReconciled(Failed(REJECTED)))]
  {
  }

  lemma RivalRecords(s: System, rival: CallId, generation: nat)
    requires rival in s.calls && s.calls[rival].pc == AtRecordReconciled(Failed(REJECTED))
    requires s.calls[rival].args.WorkflowCall? && ValidArgs(s.calls[rival].args)
    requires s.shared.slot == Some(StartedReceipt(s.calls[rival].args.payload, generation))
    ensures var after := Apply(s, Advance(rival, StoreReplies(NoFault, false)));
            && after.shared.slot == Some(s.shared.slot.value.(phase := Terminal, outcome := Some(Failed(REJECTED))))
            && after.calls == s.calls[rival := after.calls[rival]]
  {
  }

  /** The creator finds the receipt terminal without a created reference. */
  lemma CreatorEscapes(s: System, id: CallId, created: EffectValue, generation: nat)
    requires id in s.calls && s.calls[id].pc == AtRecordKnown(Succeeded(created)) && s.calls[id].args.WorkflowCall?
    requires s.shared.slot == Some(StartedReceipt(s.calls[id].args.payload, generation)
                                   .(phase := Terminal, outcome := Some(Failed(REJECTED))))
    ensures Apply(s, Advance(id, StoreReplies(NoFault, false))).calls
            == s.calls[id := s.calls[id].(pc := Done(Escaped(OtherExn)))]
  {
  }

  lemma RivalRuns(s: System, id: CallId, rival: CallId, created: EffectValue, generation: nat)
    requires id in s.calls && rival in s.calls && id != rival
    requires s.calls[rival].args.WorkflowCall? && ValidArgs(s.calls[rival].args) && s.calls[rival].args.hasReconcile
    requires s.calls[rival].pc.AtReserve? && s.calls[id].pc == AtRecordKnown(Succeeded(created))
    requires s.calls[id].args.WorkflowCall? && s.calls[id].args.payload == s.calls[rival].args.payload
    requires s.shared.slot == Some(StartedReceipt(s.calls[id].args.payload, generation))
    ensures Run(s, RivalEvents(id, rival)).calls.Keys == s.calls.Keys
    ensures Run(s, RivalEvents(id, rival)).calls[id] == s.calls[id].(pc := Done(Escaped(OtherExn)))
  {
    var es := RivalEvents(id, rival);
    RunOfFour(s, es[0], es[1], es[2], es[3]);
    RivalEnters(s, rival, generation);
    var s1 := Apply(s, es[0]);
    RivalReconciles(s1, rival);
    var s2 := Apply(s1, es[1]);
    RivalRecords(s2, rival, generation);
    CreatorEscapes(Apply(s2, es[2]), id, created, generation);
  }

  lemma RivalMakesCreationLost(args: map<CallId, CallArgs>, id: CallId, rival: CallId)
    requires id in args && args[id].WorkflowCall? && ValidArgs(args[id]) && IsRival(args, id, rival)
    ensures var created := CreatedFor(args[id].request);
            !KeepsCreation(Run(Initial(0, args), CreatorEvents(id, created) + RivalEvents(id, rival)), id)
  {
    var created := CreatedFor(args[id].request);
    var start := Initial(0, args);
    CreatorRuns(start, id, created);
    var middle := Run(start, CreatorEvents(id, created));
    assert middle.calls[rival] == Call(args[rival], AtReserve, 0, false, None);
    RivalRuns(middle, id, rival, created, 0);
    RunAppends(start, CreatorEvents(id, created), RivalEvents(id, rival));
  }

  // ---- Main result ----

  /** A workflow call answers with what it created on every run, exactly when it has no rival with a reconciler. */
  lemma CreationKeptExactlyWithoutRival(args: map<CallId, CallArgs>, id: CallId)
    requires id in args && args[id].WorkflowCall? && ValidArgs(args[id])
    ensures (forall generation: nat, events: seq<Event> :: KeepsCreation(Run(Initial(generation, args), events), id))
            <==> !HasRival(args, id)
  {
    if HasRival(args, id) {
      var rival :| rival in args && IsRival(args, id, rival);
      RivalMakesCreationLost(args, id, rival);
    } else {
      forall generation: nat, events: seq<Event> ensures KeepsCreation(Run(Initial(generation, args), events), id) {
        RunKeepsCreation(Initial(generation, args), args, id, events);
      }
    }
  }
}
