/**
 One exchange as a state machine: the walk, the resume loop with its one-slot wake channel, and the servers.

 The servers may complete any launched query between any two steps. One turn of the walk's loop, and one pass of
 the resume loop (settle, sweep, check), is one step.
 */
module WalkSystem {
  import opened Wrappers
  import opened DnsTypes
  import opened RuleWalk

  datatype Phase =
    | Walking
    | Resuming(suspension: Suspension)
    | Waiting(suspension: Suspension)
    | Finishing(pending: Pending)
    | Finished(outcome: Outcome)

  /** `wake` is the token in the wake channel. */
  datatype Sys = Sys(ws: WalkState, done: set<nat>, wake: bool, phase: Phase)

  datatype Step = Complete(id: nat) | Turn | Resume | Wake | Finish | Cancel

  function Start(cfg: Config): Sys {
    Sys(InitialWalk(cfg), {}, false, Walking)
  }

  /** The suspension still has to wait for a response. */
  predicate Blocked(ws: WalkState, done: set<nat>, s: Suspension) {
    match s
    case Await(f) => f.id !in done
    case Drain => |ws.armed| > 0
    case Ready(_) => false
  }

  predicate Enabled(s: Sys, step: Step) {
    match step
    case Complete(id) => id < |s.ws.futures| && id !in s.done
    case Turn => s.phase.Walking?
    case Resume => s.phase.Resuming?
    case Wake => s.phase.Waiting? && s.wake
    case Finish => s.phase.Finishing? && (s.phase.pending.future.Some? ==> s.phase.pending.future.value.id in s.done)
    case Cancel => s.phase.Waiting? || s.phase.Finishing?
  }

  function AfterVerdict(s: Sys, ws: WalkState, v: Verdict): Sys {
    match v
    case Final(o) => s.(ws := ws, phase := Finished(o))
    case Send(p) => s.(ws := ws, phase := Finishing(p))
  }

  function AfterTurn(s: Sys, r: StepResult): Sys {
    match r
    case Continue(ws) => s.(ws := ws)
    case Suspend(ws, suspension) => s.(ws := ws, phase := Resuming(suspension))
    case Commit(ws, o) => s.(ws := ws, phase := Finished(o))
  }

  /** One pass of the resume loop up to the point where it waits, walks on or is done. */
  function ResumePass(cfg: Config, s: Sys, suspension: Suspension): Sys {
    var (swept, verdict) := Sweep(cfg, Settle(cfg, s.ws, s.done), s.done);
    if verdict.Some? then AfterVerdict(s, swept, verdict.value)
    else if suspension.Ready? then s.(ws := swept, phase := Finishing(suspension.pending))
    else if Blocked(swept, s.done, suspension) then s.(ws := swept, phase := Waiting(suspension))
    else s.(ws := swept, phase := Walking)
  }

  function Apply(cfg: Config, s: Sys, step: Step): Sys
    requires Enabled(s, step)
  {
    match step
    case Complete(id) => s.(done := s.done + {id}, wake := true)
    case Turn => AfterTurn(s, RuleStep(cfg, s.ws, s.done))
    case Resume => ResumePass(cfg, s, s.phase.suspension)
    case Wake => s.(wake := false, phase := Resuming(s.phase.suspension))
    case Finish =>
      var p := s.phase.pending;
      s.(phase := Finished(Exchanged(p.rule, p.query, cfg.answer(p.rule, p.query))))
    case Cancel => s.(phase := Finished(Cancelled))
  }

  /** `steps` is a run of the machine from s to t. */
  predicate Runs(cfg: Config, s: Sys, steps: seq<Step>, t: Sys)
    decreases |steps|
  {
    if steps == [] then s == t
    else Enabled(s, steps[0]) && Runs(cfg, Apply(cfg, s, steps[0]), steps[1..], t)
  }

  lemma {:induction false} RunsAppend(cfg: Config, s: Sys, steps: seq<Step>, t: Sys, more: seq<Step>, u: Sys)
    requires Runs(cfg, s, steps, t) && Runs(cfg, t, more, u)
    ensures Runs(cfg, s, steps + more, u)
    decreases |steps|
  {
    if steps == [] {
      assert steps + more == more;
    } else {
      RunsAppend(cfg, Apply(cfg, s, steps[0]), steps[1..], t, more, u);
      assert (steps + more)[1..] == steps[1..] + more;
    }
  }

  lemma RunsOne(cfg: Config, s: Sys, step: Step)
    requires Enabled(s, step)
    ensures Runs(cfg, s, [step], Apply(cfg, s, step))
  {
    assert Runs(cfg, Apply(cfg, s, step), [], Apply(cfg, s, step));
  }
}
