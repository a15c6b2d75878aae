/** No wake-up is lost, and every exchange ends. */
module WalkProgress {
  import opened Wrappers
  import opened DnsTypes
  import opened RuleWalk
  import opened WalkSystem
  import opened WalkSafety
  import opened WalkCourse
  import opened WalkTurns
  import opened WalkRuns

  // ---------------------------------------------------------------- wake-ups

  /** A waiting exchange has seen every completion, or holds a wake-up for the ones it has not seen. */
  ghost predicate Alert(s: Sys) {
    s.phase.Waiting? ==>
      && (s.done != s.ws.settled ==> s.wake)
      && Blocked(s.ws, s.ws.settled, s.phase.suspension)
      && (forall a :: a in s.ws.armed ==> !ArmedReady(a, s.ws.settled))
  }

  lemma StepAlert(cfg: Config, s: Sys, step: Step)
    requires WellFormed(cfg.rules) && Inv(cfg, s) && Alert(s) && Enabled(s, step)
    ensures Alert(Apply(cfg, s, step))
  {
    if step.Resume? {
      ResumeAlert(cfg, s, s.phase.suspension);
    }
  }

  lemma ResumeAlert(cfg: Config, s: Sys, suspension: Suspension)
    requires RespondBinding(cfg.rules) && WalkInv(cfg, s.ws, s.done)
    ensures Alert(ResumePass(cfg, s, suspension))
  {
    SettleOk(cfg, s.ws, s.done);
    var now := Settle(cfg, s.ws, s.done);
    AllArmedAreEach(cfg, now, s.done);
    SweepFromOk(cfg, now, s.done, 0);
    var (swept, verdict) := Sweep(cfg, now, s.done);
    assert SweepResult(cfg, now, s.done, swept, verdict);
  }

  lemma {:induction false} RunAlert(cfg: Config, s: Sys, steps: seq<Step>, t: Sys)
    requires WellFormed(cfg.rules) && Inv(cfg, s) && Alert(s) && Runs(cfg, s, steps, t)
    ensures Alert(t)
    decreases |steps|
  {
    if steps != [] {
      StepInv(cfg, s, steps[0]);
      StepAlert(cfg, s, steps[0]);
      RunAlert(cfg, Apply(cfg, s, steps[0]), steps[1..], t);
    }
  }

  /** If a response an exchange waits for has arrived, or an armed rule has become ready, a wake-up is in the channel. */
  lemma NoLostWakeup(cfg: Config, steps: seq<Step>, t: Sys)
    requires WellFormed(cfg.rules) && Runs(cfg, Start(cfg), steps, t) && t.phase.Waiting?
    ensures t.phase.suspension.Await? && t.phase.suspension.future.id in t.done ==> t.wake
    ensures (exists a :: a in t.ws.armed && ArmedReady(a, t.done)) ==> t.wake
  {
    StartInv(cfg);
    RunAlert(cfg, Start(cfg), steps, t);
  }

  /** An unfinished exchange can go on, or a server still owes it an answer. */
  lemma NotStuck(cfg: Config, steps: seq<Step>, t: Sys)
    requires WellFormed(cfg.rules) && Runs(cfg, Start(cfg), steps, t) && !t.phase.Finished?
    ensures exists step :: step != Cancel && Enabled(t, step)
  {
    StartInv(cfg);
    RunInv(cfg, Start(cfg), steps, t);
    RunAlert(cfg, Start(cfg), steps, t);
    match t.phase
    case Walking => assert Enabled(t, Turn);
    case Resuming(_) => assert Enabled(t, Resume);
    case Waiting(suspension) =>
      if t.wake {
        assert Enabled(t, Wake);
      } else {
        var f := WaitedFor(cfg, t);
        assert Enabled(t, Complete(f.id));
      }
    case Finishing(p) =>
      if p.future.Some? && p.future.value.id !in t.done {
        assert Enabled(t, Complete(p.future.value.id));
      } else {
        assert Enabled(t, Finish);
      }
  }

  /** What a waiting exchange without a wake-up waits for. */
  lemma WaitedFor(cfg: Config, s: Sys) returns (f: Future)
    requires Inv(cfg, s) && Alert(s) && s.phase.Waiting? && !s.wake
    ensures Known(s.ws.futures, f) && f.id !in s.done
  {
    match s.phase.suspension
    case Await(g) => f := g;
    case Drain =>
      var a := s.ws.armed[0];
      assert ArmedOk(cfg, s.ws.futures, s.ws.namedFutures, s.ws.index, s.done, a);
      assert !ArmedReady(a, s.done);
      f :| f in a.pending && f.id !in s.done;
  }

  // ---------------------------------------------------------------- termination

  /** How many of the first n futures have no answer yet. */
  function Open(n: nat, done: set<nat>): nat {
    if n == 0 then 0 else Open(n - 1, done) + if n - 1 in done then 0 else 1
  }

  lemma {:induction false} OpenComplete(n: nat, done: set<nat>, id: nat)
    requires id !in done
    ensures Open(n, done + {id}) == Open(n, done) - if id < n then 1 else 0
  {
    if n > 0 {
      OpenComplete(n - 1, done, id);
    }
  }

  /** Rules not passed yet, counting the rule at hand twice until it has started its query early. */
  function RulesLeft(cfg: Config, s: Sys): nat {
    (if s.ws.index <= |cfg.rules| then 2 * (|cfg.rules| - s.ws.index) else 0) + if s.ws.terminal.None? then 1 else 0
  }

  function ArmedLeft(s: Sys): nat {
    if s.phase.Finishing? || s.phase.Finished? then 0 else |s.ws.armed|
  }

  function PhaseRank(s: Sys): nat {
    match s.phase
    case Finished(_) => 0
    case Finishing(_) => 1
    case Waiting(_) => 1
    case Resuming(suspension) => if suspension.Ready? || Blocked(s.ws, s.done, suspension) then 2 else 4
    case Walking => 3
  }

  function Token(s: Sys): nat {
    if s.wake then 1 else 0
  }

  /** t is below s: fewer rules left, then fewer open queries, then no token, then fewer armed rules, then a later phase. */
  predicate Below(cfg: Config, t: Sys, s: Sys) {
    if RulesLeft(cfg, t) != RulesLeft(cfg, s) then RulesLeft(cfg, t) < RulesLeft(cfg, s)
    else if Open(|t.ws.futures|, t.done) != Open(|s.ws.futures|, s.done) then
      Open(|t.ws.futures|, t.done) < Open(|s.ws.futures|, s.done)
    else if Token(t) != Token(s) then Token(t) < Token(s)
    else if ArmedLeft(t) != ArmedLeft(s) then ArmedLeft(t) < ArmedLeft(s)
    else PhaseRank(t) < PhaseRank(s)
  }

  lemma BelowTransitive(cfg: Config, u: Sys, t: Sys, s: Sys)
    requires Below(cfg, u, t) && Below(cfg, t, s)
    ensures Below(cfg, u, s)
  {
  }

  lemma {:induction false} SweepShrinks(cfg: Config, ws: WalkState, done: set<nat>, k: nat)
    ensures
      var (swept, v) := SweepFrom(cfg, ws, done, k);
      swept == ws.(armed := swept.armed) && |swept.armed| <= |ws.armed|
    decreases |ws.armed| - k
  {
    if k >= |ws.armed| {
    } else if !ArmedReady(ws.armed[k], done) {
      SweepShrinks(cfg, ws, done, k + 1);
    } else {
      SweepShrinks(cfg, ws.(armed := ws.armed[..k] + ws.armed[k + 1..]), done, k);
    }
  }

  lemma ResumeDescends(cfg: Config, s: Sys)
    requires s.phase.Resuming?
    ensures Below(cfg, ResumePass(cfg, s, s.phase.suspension), s)
  {
    SettleKeeps(cfg, s.ws, s.done, 0);
    SweepShrinks(cfg, Settle(cfg, s.ws, s.done), s.done, 0);
  }

  /** What a turn of the loop does to the measure. */
  ghost predicate TurnDescends(cfg: Config, ws: WalkState, done: set<nat>, r: StepResult) {
    match r
    case Continue(next) => next.index == ws.index + 1 <= |cfg.rules| && next.terminal == ws.terminal
    case Suspend(next, suspension) =>
      && next.index == ws.index
      && |next.armed| <= |ws.armed|
      && (suspension.Ready? || Blocked(next, done, suspension))
      && ((next.futures == ws.futures && next.terminal == ws.terminal) || (ws.terminal.None? && next.terminal.Some?))
    case Commit(next, _) => next.index == ws.index && next.futures == ws.futures && next.terminal == ws.terminal
  }

  lemma ActionDescends(cfg: Config, ws: WalkState, done: set<nat>)
    requires ws.index < |cfg.rules|
    ensures TurnDescends(cfg, ws, done, ActionStep(cfg, ws, done))
  {
    match cfg.rules[ws.index].action
    case Evaluate(_, _, _, _) => EvaluateDescends(cfg, ws, done);
    case Route(_, _, _) => RouteDescends(cfg, ws, done);
    case Respond => RespondDescends(cfg, ws, done);
    case _ =>
  }

  lemma EvaluateDescends(cfg: Config, ws: WalkState, done: set<nat>)
    requires ws.index < |cfg.rules| && cfg.rules[ws.index].action.Evaluate?
    ensures TurnDescends(cfg, ws, done, ActionStep(cfg, ws, done))
  {
  }

  lemma RouteDescends(cfg: Config, ws: WalkState, done: set<nat>)
    requires ws.index < |cfg.rules| && cfg.rules[ws.index].action.Route?
    ensures TurnDescends(cfg, ws, done, ActionStep(cfg, ws, done))
  {
  }

  lemma RespondDescends(cfg: Config, ws: WalkState, done: set<nat>)
    requires ws.index < |cfg.rules| && cfg.rules[ws.index].action.Respond?
    ensures TurnDescends(cfg, ws, done, ActionStep(cfg, ws, done))
  {
  }

  lemma OrderedDescends(cfg: Config, ws: WalkState, done: set<nat>)
    requires ws.index < |cfg.rules| && NamesOk(ws.futures, ws.namedFutures, ws.anon)
    ensures TurnDescends(cfg, ws, done, OrderedAction(cfg, ws, done))
  {
    PendingIsKnown(ws, cfg.rules[ws.index], done);
    ActionDescends(cfg, ws, done);
  }

  lemma RaceDescends(cfg: Config, ws: WalkState, done: set<nat>)
    requires ws.index < |cfg.rules|
    ensures TurnDescends(cfg, ws, done, RaceAction(cfg, ws, done))
  {
    SweepShrinks(cfg, ws.(armed := ws.armed + [EntryOf(cfg, ws, done)]), done, 0);
  }

  lemma RuleStepDescends(cfg: Config, ws: WalkState, done: set<nat>)
    requires WalkInv(cfg, ws, done)
    ensures TurnDescends(cfg, ws, done, RuleStep(cfg, ws, done))
  {
    if ws.index < |cfg.rules| {
      SettleKeeps(cfg, ws, done, 0);
      var now := if cfg.rules[ws.index].Binds() then Settle(cfg, ws, done) else ws;
      if cfg.rules[ws.index].Races() {
        RaceDescends(cfg, now, done);
      } else {
        OrderedDescends(cfg, now, done);
      }
      DescendsFrom(cfg, ws, now, done, RuleStep(cfg, ws, done));
    }
  }

  lemma DescendsFrom(cfg: Config, ws: WalkState, now: WalkState, done: set<nat>, r: StepResult)
    requires TurnDescends(cfg, now, done, r)
    requires now.index == ws.index && now.terminal == ws.terminal && now.futures == ws.futures && now.armed == ws.armed
    ensures TurnDescends(cfg, ws, done, r)
  {
  }

  lemma TurnBelow(cfg: Config, s: Sys, r: StepResult)
    requires s.phase.Walking? && TurnDescends(cfg, s.ws, s.done, r) && s.ws.index <= |cfg.rules|
    ensures Below(cfg, AfterTurn(s, r), s)
  {
  }

  /** Every step takes the exchange down. */
  lemma StepDescends(cfg: Config, s: Sys, step: Step)
    requires WalkInv(cfg, LiveWalk(s), s.done) && Enabled(s, step)
    ensures Below(cfg, Apply(cfg, s, step), s)
  {
    match step
    case Complete(id) => OpenComplete(|s.ws.futures|, s.done, id);
    case Turn =>
      RuleStepDescends(cfg, s.ws, s.done);
      TurnBelow(cfg, s, RuleStep(cfg, s.ws, s.done));
    case Resume => ResumeDescends(cfg, s);
    case Wake =>
    case Finish =>
    case Cancel =>
  }

  /** A way to choose the next step from the steps taken so far. */
  type Schedule = seq<Step> -> Step

  /** The schedule never asks for an impossible step, and never stops an unfinished exchange. */
  ghost predicate Proper(cfg: Config, schedule: Schedule) {
    forall steps, t :: Runs(cfg, Start(cfg), steps, t) && !t.phase.Finished? ==> Enabled(t, schedule(steps))
  }

  ghost predicate Follows(schedule: Schedule, steps: seq<Step>) {
    forall k :: 0 <= k < |steps| ==> steps[k] == schedule(steps[..k])
  }

  /** However the steps are scheduled, the exchange ends. */
  lemma {:induction false} RunEnds(cfg: Config, schedule: Schedule, past: seq<Step>, s: Sys) returns (steps: seq<Step>, t: Sys)
    requires WellFormed(cfg.rules) && Proper(cfg, schedule) && Runs(cfg, Start(cfg), past, s) && Follows(schedule, past)
    requires Inv(cfg, s)
    ensures Runs(cfg, Start(cfg), steps, t) && Follows(schedule, steps) && t.phase.Finished?
    decreases RulesLeft(cfg, s), Open(|s.ws.futures|, s.done), Token(s), ArmedLeft(s), PhaseRank(s)
  {
    if s.phase.Finished? {
      steps, t := past, s;
    } else {
      var step := schedule(past);
      assert Enabled(s, step);
      StepInv(cfg, s, step);
      StepDescends(cfg, s, step);
      RunsOne(cfg, s, step);
      RunsAppend(cfg, Start(cfg), past, s, [step], Apply(cfg, s, step));
      assert Follows(schedule, past + [step]) by {
        forall k | 0 <= k < |past + [step]|
          ensures (past + [step])[k] == schedule((past + [step])[..k])
        {
          assert (past + [step])[..k] == past[..k];
        }
      }
      steps, t := RunEnds(cfg, schedule, past + [step], Apply(cfg, s, step));
    }
  }

  lemma ExchangeEnds(cfg: Config, schedule: Schedule)
    requires WellFormed(cfg.rules) && Proper(cfg, schedule)
    ensures exists steps, t :: Runs(cfg, Start(cfg), steps, t) && Follows(schedule, steps) && t.phase.Finished?
  {
    StartInv(cfg);
    var steps, t := RunEnds(cfg, schedule, [], Start(cfg));
  }
}
