/** What calls on the service bring about: interrupts that last, a status that tells the phase, a shut service that stays so. */
module ServiceEffects {
  import opened Wrappers
  import opened ServiceLifecycle

  // ---------------------------------------------------------------- interrupts

  /** The call that is about to be made is one that interrupts. */
  predicate Interrupting(s: Sys, step: Step) {
    step.Advance? && step.caller in s.pcs && (s.pcs[step.caller] == StartCalled || s.pcs[step.caller] == CloseCalled)
  }

  /** An instance is cancelled exactly when a start or close is called while it is starting. */
  lemma WhoIsCancelled(s: Sys, step: Step)
    requires Enabled(s, step)
    ensures
      Apply(s, step).cancelled ==
        s.cancelled + if Interrupting(s, step) && s.f.status == Starting && s.f.instance.Some? then {s.f.instance.value} else {}
  {
  }

  lemma {:induction false} CancelledGrows(s: Sys, steps: seq<Step>, t: Sys)
    requires Runs(s, steps, t)
    ensures s.cancelled <= t.cancelled
    decreases |steps|
  {
    if steps != [] {
      WhoIsCancelled(s, steps[0]);
      CancelledGrows(Apply(s, steps[0]), steps[1..], t);
    }
  }

  /** A start or close that is called while an instance is starting: that instance is never announced, and gets closed. */
  lemma InterruptLasts(past: seq<Step>, s: Sys, c: nat, ok: bool, id: nat, steps: seq<Step>, t: Sys)
    requires Runs(Fresh, past, s) && s.f.status == Starting && s.f.instance == Some(id)
    requires c in s.pcs && (s.pcs[c] == StartCalled || s.pcs[c] == CloseCalled)
    requires Runs(Apply(s, Advance(c, ok)), steps, t)
    ensures id !in t.published
    ensures t.lock.None? ==> id !in t.live && t.f.instance != Some(id)
  {
    RunOk(Fresh, past, s);
    var u := Apply(s, Advance(c, ok));
    StepOk(s, Advance(c, ok));
    WhoIsCancelled(s, Advance(c, ok));
    RunOk(u, steps, t);
    CancelledGrows(u, steps, t);
    RunFree(Fresh, past, s);
    FreeStep(s, Advance(c, ok));
    RunFree(u, steps, t);
  }

  // ---------------------------------------------------------------- the status

  /** What the status says while the lifecycle lock is held. An error report may have overwritten it. */
  predicate PhaseStatus(pc: Pc, status: Status, instance: Option<nat>) {
    match pc
    case ClosingOld(_) => status == Stopping || status == Fatal
    case OldClosed => status == Stopping || status == Fatal
    case ClosingCurrent(_) => status == Stopping || status == Fatal
    case CurrentClosed => status == Stopping || status == Fatal
    case Creating => status == Starting || status == Fatal
    case CreateFailed => status == Starting || status == Fatal
    case Created(_) => status == Starting || status == Fatal
    case Booting(_) => status == Starting || status == Fatal
    case Booted(_, _) => status == Starting || status == Fatal
    case Discarding(_) => status == Starting || status == Fatal
    case _ => RestStatus(status, instance)
  }

  /** Between calls: started with an instance; idle, or left by an interrupted start, without one. */
  predicate RestStatus(status: Status, instance: Option<nat>) {
    status == Fatal || (if instance.Some? then status == Started else status == Idle || status == Starting)
  }

  ghost predicate StatusOk(s: Sys) {
    if s.lock.None? then RestStatus(s.f.status, s.f.instance)
    else s.lock.value in s.pcs && PhaseStatus(s.pcs[s.lock.value], s.f.status, s.f.instance)
  }

  lemma MoveStatus(s: Sys, c: nat, ok: bool)
    requires Inv(s) && StatusOk(s) && s.lock == Some(c) && Holding(s.pcs[c])
    ensures StatusOk(Move(s, c, ok))
  {
  }

  lemma StatusStep(s: Sys, step: Step)
    requires Inv(s) && StatusOk(s) && Enabled(s, step)
    ensures StatusOk(Apply(s, step))
  {
    if step.Advance? && Holding(s.pcs[step.caller]) {
      MoveStatus(s, step.caller, step.ok);
    }
  }

  lemma {:induction false} StatusRun(s: Sys, steps: seq<Step>, t: Sys)
    requires Inv(s) && StatusOk(s) && Runs(s, steps, t)
    ensures StatusOk(t)
    decreases |steps|
  {
    if steps != [] {
      StepOk(s, steps[0]);
      StatusStep(s, steps[0]);
      StatusRun(Apply(s, steps[0]), steps[1..], t);
    }
  }

  /** In every reachable state the status tells what the holder of the lifecycle lock is doing, or what the last one left. */
  lemma StatusTells(steps: seq<Step>, t: Sys)
    requires Runs(Fresh, steps, t)
    ensures StatusOk(t)
  {
    StatusRun(Fresh, steps, t);
  }

  // ---------------------------------------------------------------- a shut service

  /** A start that is past its first section and has not created its instance yet. */
  predicate AboutToCreate(pc: Pc) {
    pc.ClosingOld? || pc.OldClosed? || pc.Creating?
  }

  ghost predicate ShutFor(s: Sys) {
    s.f.closed && forall c :: c in s.pcs ==> !AboutToCreate(s.pcs[c])
  }

  lemma ShutStep(s: Sys, step: Step)
    requires ShutFor(s) && Enabled(s, step)
    ensures ShutFor(Apply(s, step)) && Apply(s, step).next == s.next && Apply(s, step).live <= s.live
  {
  }

  /** Once the service is shut, and no start is on its way, no instance is ever created again. */
  lemma {:induction false} ShutCreatesNothing(s: Sys, steps: seq<Step>, t: Sys)
    requires ShutFor(s) && Runs(s, steps, t)
    ensures t.next == s.next && t.live <= s.live && t.f.closed
    decreases |steps|
  {
    if steps != [] {
      ShutStep(s, steps[0]);
      ShutCreatesNothing(Apply(s, steps[0]), steps[1..], t);
    }
  }
}
