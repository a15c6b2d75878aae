/** The theorems about whole runs of an exchange. */
module WalkRuns {
  import opened Wrappers
  import opened DnsTypes
  import opened RuleWalk
  import opened WalkSystem
  import opened WalkSafety
  import opened WalkCourse
  import opened WalkTurns
  import Ref = WalkReference

  // ---------------------------------------------------------------- every step keeps the invariant

  lemma StartInv(cfg: Config)
    ensures Inv(cfg, Start(cfg))
  {
    assert EnvOf(InitialWalk(cfg)) == Ref.InitialEnv(cfg);
  }

  lemma AllArmedComplete(cfg: Config, futures: seq<Future>, named: map<Tag, Future>, index: nat, done: set<nat>, armed: seq<Armed>, id: nat)
    requires AllArmedOk(cfg, futures, named, index, done, armed)
    ensures AllArmedOk(cfg, futures, named, index, done + {id}, armed)
  {
    forall a | a in armed
      ensures ArmedOk(cfg, futures, named, index, done + {id}, a) && a.pending != [] && SourceFixed(a)
    {
      assert ArmedOk(cfg, futures, named, index, done, a);
    }
  }

  /** A query may complete at any time. */
  lemma CompleteOk(cfg: Config, ws: WalkState, done: set<nat>, id: nat)
    requires WalkInv(cfg, ws, done) && id < |ws.futures|
    ensures WalkInv(cfg, ws, done + {id})
  {
    AllArmedComplete(cfg, ws.futures, ws.namedFutures, ws.index, done, ws.armed, id);
    if ws.terminal.Some? {
      PendingOfSpec(ws.namedFutures, ws.anon, cfg.rules[ws.index], done);
      PendingOfSpec(ws.namedFutures, ws.anon, cfg.rules[ws.index], done + {id});
    }
  }

  /** A pass of the resume loop without a winner. */
  lemma SweptOk(cfg: Config, ws: WalkState, done: set<nat>, swept: WalkState)
    requires WalkInv(cfg, ws, done) && SweepResult(cfg, ws, done, swept, None)
    ensures WalkInv(cfg, swept, done)
    ensures OnCourse(cfg, ws, done) ==> OnCourse(cfg, swept, done)
  {
    assert AllArmedOk(cfg, ws.futures, ws.namedFutures, ws.index, done, swept.armed);
    assert EnvOf(swept) == EnvOf(ws);
    AllArmedAreEach(cfg, ws, done);
    EachArmedFacts(cfg, ws, done);
    if OnCourse(cfg, ws, done) {
      SweptCourse(cfg, ws, done, swept);
    }
  }

  lemma ResumePassOk(cfg: Config, s: Sys, suspension: Suspension)
    requires RespondBinding(cfg.rules) && WalkInv(cfg, s.ws, s.done) && SuspensionOk(cfg, s.ws, s.done, suspension)
    ensures Inv(cfg, ResumePass(cfg, s, suspension))
  {
    SettleOk(cfg, s.ws, s.done);
    SuspensionSettled(cfg, s.ws, s.done, suspension);
    SweepNowOk(cfg, s.(ws := Settle(cfg, s.ws, s.done)), suspension);
  }

  lemma CourseSettled(cfg: Config, ws: WalkState, done: set<nat>)
    requires OnCourse(cfg, ws, done)
    ensures OnCourse(cfg, Settle(cfg, ws, done), done)
    ensures var now := Settle(cfg, ws, done); now.futures == ws.futures && now.index == ws.index && now.armed == ws.armed
  {
    SettleKeeps(cfg, ws, done, 0);
    assert EnvOf(Settle(cfg, ws, done)) == EnvOf(ws);
  }

  lemma SuspensionSettled(cfg: Config, ws: WalkState, done: set<nat>, suspension: Suspension)
    requires SuspensionOk(cfg, ws, done, suspension)
    ensures SuspensionOk(cfg, Settle(cfg, ws, done), done, suspension)
  {
    SettleKeeps(cfg, ws, done, 0);
    assert EnvOf(Settle(cfg, ws, done)) == EnvOf(ws);
  }

  /** A winner needs an armed rule, so the walk was not yet decided. */
  lemma ArmedSurvive(cfg: Config, s: Sys, suspension: Suspension)
    requires SuspensionOk(cfg, s.ws, s.done, suspension) && s.ws.armed != []
    ensures OnCourse(cfg, s.ws, s.done)
  {
  }

  lemma SweepNowOk(cfg: Config, s: Sys, suspension: Suspension)
    requires RespondBinding(cfg.rules) && WalkInv(cfg, s.ws, s.done) && SuspensionOk(cfg, s.ws, s.done, suspension)
    requires s.ws.settled == s.done
    ensures
      var (swept, verdict) := Sweep(cfg, s.ws, s.done);
      if verdict.Some? then Inv(cfg, AfterVerdict(s, swept, verdict.value))
      else WalkInv(cfg, swept, s.done) && SuspensionOk(cfg, swept, s.done, suspension)
  {
    if Sweep(cfg, s.ws, s.done).1.Some? {
      SweepWonOk(cfg, s, suspension);
    } else {
      AllArmedAreEach(cfg, s.ws, s.done);
      SweepFromOk(cfg, s.ws, s.done, 0);
      SweptOk(cfg, s.ws, s.done, Sweep(cfg, s.ws, s.done).0);
    }
  }

  lemma SweepWonOk(cfg: Config, s: Sys, suspension: Suspension)
    requires RespondBinding(cfg.rules) && WalkInv(cfg, s.ws, s.done) && SuspensionOk(cfg, s.ws, s.done, suspension)
    requires s.ws.settled == s.done && Sweep(cfg, s.ws, s.done).1.Some?
    ensures
      var (swept, verdict) := Sweep(cfg, s.ws, s.done);
      Inv(cfg, AfterVerdict(s, swept, verdict.value))
  {
    var (swept, verdict) := Sweep(cfg, s.ws, s.done);
    AllArmedAreEach(cfg, s.ws, s.done);
    SweepFromOk(cfg, s.ws, s.done, 0);
    ArmedSurvive(cfg, s, suspension);
    WinnerOk(cfg, s.ws, s.done, verdict.value, s.ws.index, s.ws.terminal);
    DisarmedOk(cfg, s.ws, s.done);
    assert swept.(armed := []) == s.ws.(armed := []);
  }

  lemma CompleteInv(cfg: Config, s: Sys, id: nat)
    requires Inv(cfg, s) && id < |s.ws.futures|
    ensures Inv(cfg, s.(done := s.done + {id}, wake := true))
  {
    CompleteOk(cfg, LiveWalk(s), s.done, id);
    if OnCourse(cfg, s.ws, s.done) {
      CourseComplete(cfg, s.ws, s.done, id);
    }
  }

  lemma CancelInv(cfg: Config, s: Sys)
    requires Inv(cfg, s)
    ensures Inv(cfg, s.(phase := Finished(Cancelled)))
  {
    DisarmedOk(cfg, LiveWalk(s), s.done);
  }

  lemma TurnInv(cfg: Config, s: Sys)
    requires WellFormed(cfg.rules) && WalkInv(cfg, s.ws, s.done) && OnCourse(cfg, s.ws, s.done) && s.phase.Walking?
    ensures Inv(cfg, AfterTurn(s, RuleStep(cfg, s.ws, s.done)))
  {
    RuleStepOk(cfg, s.ws, s.done);
    TurnResult(cfg, s, RuleStep(cfg, s.ws, s.done));
  }

  lemma TurnResult(cfg: Config, s: Sys, r: StepResult)
    requires ResultOk(cfg, s.done, r) && s.phase.Walking?
    ensures Inv(cfg, AfterTurn(s, r))
  {
  }

  lemma FinishInv(cfg: Config, s: Sys)
    requires Inv(cfg, s) && Enabled(s, Finish)
    ensures Inv(cfg, Apply(cfg, s, Finish))
  {
  }

  /** No step, of the exchange or of a server, leaves the invariant. */
  lemma StepInv(cfg: Config, s: Sys, step: Step)
    requires WellFormed(cfg.rules) && Inv(cfg, s) && Enabled(s, step)
    ensures Inv(cfg, Apply(cfg, s, step))
  {
    match step
    case Complete(id) => CompleteInv(cfg, s, id);
    case Turn => TurnInv(cfg, s);
    case Resume => ResumePassOk(cfg, s, s.phase.suspension);
    case Wake =>
    case Finish => FinishInv(cfg, s);
    case Cancel => CancelInv(cfg, s);
  }

  lemma {:induction false} RunInv(cfg: Config, s: Sys, steps: seq<Step>, t: Sys)
    requires WellFormed(cfg.rules) && Inv(cfg, s) && Runs(cfg, s, steps, t)
    ensures Inv(cfg, t)
    decreases |steps|
  {
    if steps != [] {
      StepInv(cfg, s, steps[0]);
      RunInv(cfg, Apply(cfg, s, steps[0]), steps[1..], t);
    }
  }

  // ---------------------------------------------------------------- what a run can end with

  /** Whatever the order in which the servers answer, an exchange ends with a possible result. */
  lemma OutcomeIsPossible(cfg: Config, steps: seq<Step>, t: Sys)
    requires WellFormed(cfg.rules) && Runs(cfg, Start(cfg), steps, t) && t.phase.Finished?
    ensures t.phase.outcome == Cancelled || Ref.Possible(cfg, t.phase.outcome)
  {
    StartInv(cfg);
    RunInv(cfg, Start(cfg), steps, t);
    InvOutcome(cfg, t);
  }

  lemma InvOutcome(cfg: Config, t: Sys)
    requires Inv(cfg, t) && t.phase.Finished?
    ensures t.phase.outcome == Cancelled || Ref.Possible(cfg, t.phase.outcome)
  {
  }

  /** Without race rules the order in which the servers answer does not matter: the result is the sequential one. */
  lemma OutcomeIsSequential(cfg: Config, steps: seq<Step>, t: Sys)
    requires WellFormed(cfg.rules) && Ref.NoRace(cfg) && Runs(cfg, Start(cfg), steps, t) && t.phase.Finished?
    ensures t.phase.outcome == Cancelled || t.phase.outcome == Ref.Sequential(cfg, 0, Ref.InitialEnv(cfg))
  {
    OutcomeIsPossible(cfg, steps, t);
    forall i | 0 <= i < |cfg.rules|
      ensures !Ref.Hit(cfg, i)
    {
      assert cfg.rules[i] in cfg.rules;
    }
  }
}
