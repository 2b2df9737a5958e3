/**
  The objects behind the startup claims: the bounded admission queue, the lease of one claim, and the
  Gateway's flags.  Every method is one piece of code between two awaits and is proved against the
  step of StartupClaims that it takes.
 */
module StartupAdmission {
  import opened StartupClaims
  import opened Wrappers

  class GatewayStartupAdmission {
    const maxPending: nat
    var entries: seq<Claim>
    var overflow: bool
    var overflowCount: nat

    constructor (maxPending: nat)
      requires maxPending >= 1
      ensures this.maxPending == maxPending && entries == [] && !overflow && overflowCount == 0
    {
      this.maxPending := maxPending;
      entries, overflow, overflowCount := [], false, 0;
    }

    method Reset()
      modifies this
      ensures entries == [] && !overflow && overflowCount == old(overflowCount)
    {
      entries := [];
      overflow := false;
    }

    /** Once overflowed, everything is refused; only the refusal that caused it is counted. */
    method Admit(entry: Claim) returns (admitted: bool)
      modifies this
      ensures admitted <==> !old(overflow) && |old(entries)| < maxPending
      ensures entries == if admitted then old(entries) + [entry] else old(entries)
      ensures overflow == !admitted
      ensures overflowCount == old(overflowCount) + if admitted || old(overflow) then 0 else 1
    {
      if overflow {
        return false;
      }
      if |entries| >= maxPending {
        overflowCount := overflowCount + 1;
        overflow := true;
        return false;
      }
      entries := entries + [entry];
      admitted := true;
    }

    method PopLeft() returns (entry: Claim)
      requires entries != []
      modifies this`entries
      ensures [entry] + entries == old(entries)
    {
      entry := entries[0];
      entries := entries[1..];
    }
  }

  class InboundAdmissionLease {
    const claim: Claim
    var state: Lease

    constructor (claim: Claim)
      ensures this.claim == claim && state == Open
    {
      this.claim := claim;
      state := Open;
    }

    /** `deliver` up to its first await; refused if the lease is no longer open. */
    method BeginDeliver(matches: bool) returns (refused: bool)
      modifies this
      ensures refused == (old(state) != Open) && state == LeaseStep(old(state), Deliver(matches))
    {
      if state != Open {
        return true;
      }
      if matches {
        state := Refreshing;
      } else {
        BeginRelease();
      }
      refused := false;
    }

    /** The refresh has returned: either the claim is handed off, or the lease is closed and releases it. */
    method FinishRefresh(ok: bool) returns (handOff: bool)
      requires state == Refreshing
      modifies this
      ensures handOff == ok && state == LeaseStep(old(state), Refreshed(ok))
      ensures handOff <==> state == Transferred
    {
      state := if ok then Transferred else Closed;
      handOff := ok;
    }

    method BeginRelease()
      modifies this
      ensures state == LeaseStep(old(state), Release)
    {
      if state == Open {
        state := Releasing;
      }
    }

    method FinishRelease(ok: bool)
      requires state == Releasing
      modifies this
      ensures state == LeaseStep(old(state), ReleaseDone(ok))
    {
      state := if ok then Released else Open;
    }
  }

  class StartupGateway {
    const admission: GatewayStartupAdmission
    var accepting: bool
    var starting: bool
    var tasks: map<TaskId, Phase>
    ghost var countAtReset: nat
    ghost var arrived: seq<Claim>
    ghost var handed: seq<Claim>
    ghost var released: seq<Claim>
    ghost var dropped: seq<Claim>

    constructor (maxPending: nat)
      requires maxPending >= 1
      ensures fresh(admission) && admission.maxPending == maxPending && Fields() == STOPPED
    {
      admission := new GatewayStartupAdmission(maxPending);
      accepting, starting, tasks := false, false, map[];
      countAtReset, arrived, handed, released, dropped := 0, [], [], [], [];
    }

    ghost function Fields(): Gateway
      reads this, admission
    {
      Gateway(accepting, starting, admission.entries, admission.overflow, admission.overflowCount, countAtReset,
              tasks, arrived, handed, released, dropped)
    }

    /** What happens to a transferred claim before the next await. */
    method HandleClaimed(claim: Claim) returns (outcome: Placement)
      modifies this, admission
      ensures Fields() == Handoff(old(Fields()), claim, admission.maxPending)
      ensures outcome.ToProcessing? <==> handed == old(handed) + [claim]
      ensures outcome.ToRelease? <==> released == old(released) + [claim]
      ensures outcome.InQueue? <==> admission.entries == old(admission.entries) + [claim]
    {
      arrived := arrived + [claim];
      if !accepting {
        released := released + [claim];
        return ToRelease;
      }
      if starting {
        var admitted := admission.Admit(claim);
        if admitted {
          return InQueue;
        }
        released := released + [claim];
        return ToRelease;
      }
      handed := handed + [claim];
      outcome := ToProcessing;
    }

    method BeginStart(task: TaskId, preparations: bool)
      requires task !in tasks
      modifies this, admission
      ensures Fields() == StartCalled(old(Fields()), task, preparations)
    {
      starting := true;
      accepting := !preparations;
      dropped := dropped + admission.entries;
      countAtReset := admission.overflowCount;
      admission.Reset();
      tasks := tasks[task := if preparations then Preparing else BringingUp];
    }

    method FinishPreparations(task: TaskId)
      requires In(Fields(), task, Preparing)
      modifies this
      ensures Fields() == Prepared(old(Fields()), task)
    {
      accepting := true;
      tasks := tasks[task := BringingUp];
    }

    /** The check between two starts of Applications or Channels. */
    method CheckOverflow(task: TaskId) returns (next: Option<Claim>)
      requires In(Fields(), task, BringingUp)
      modifies this, admission
      ensures Fields() == GatewayStep(old(Fields()), Checkpoint(task))
      ensures released == old(released) + Given(next)
    {
      next := None;
      if admission.overflow {
        next := FailStart(task);
      }
    }

    /** The start raised: admission closes and the rollback begins. */
    method FailStart(task: TaskId) returns (next: Option<Claim>)
      requires task in tasks
      modifies this, admission
      ensures Fields() == StartRaised(old(Fields()), task) && released == old(released) + Given(next)
    {
      accepting := false;
      starting := false;
      next := RollbackNext(task);
    }

    /** One turn of the rollback loop; the claim to release, if one is left. */
    method RollbackNext(task: TaskId) returns (next: Option<Claim>)
      requires task in tasks
      modifies this, admission
      ensures Fields() == RollbackTurn(old(Fields()), task) && released == old(released) + Given(next)
    {
      if admission.entries == [] {
        tasks := tasks[task := Failed];
        return None;
      }
      var entry := admission.PopLeft();
      released := released + [entry];
      tasks := tasks[task := RollingBack];
      next := Some(entry);
    }

    /**
      One turn of the drain loop, which stops at an overflow: the claim to process, or the success, or the rollback.
     */
    method DrainNext(task: TaskId) returns (next: Option<Claim>)
      requires task in tasks
      modifies this, admission
      ensures Fields() == DrainTurn(old(Fields()), task)
      ensures !old(admission.overflow) ==> handed == old(handed) + Given(next)
    {
      if admission.overflow {
        next := FailStart(task);
        return;
      }
      if admission.entries == [] {
        starting := false;
        tasks := tasks[task := Succeeded];
        return None;
      }
      var entry := admission.PopLeft();
      handed := handed + [entry];
      tasks := tasks[task := Handling];
      next := Some(entry);
    }

    method StopAdmission()
      modifies this
      ensures Fields() == GatewayStep(old(Fields()), Stop)
    {
      accepting := false;
      starting := false;
    }
  }

  datatype Placement = ToProcessing | ToRelease | InQueue

  function Given(next: Option<Claim>): seq<Claim> { if next.Some? then [next.value] else [] }
}
