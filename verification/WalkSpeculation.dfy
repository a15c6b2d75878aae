/** What the `speculative` and `race` flags change, and what they do not. */
module WalkSpeculation {
  import opened Wrappers
  import opened DnsTypes
  import opened RuleWalk
  import opened WalkSystem
  import opened WalkSafety
  import opened WalkCourse
  import opened WalkTurns
  import opened WalkRuns
  import opened WalkProgress
  import opened WalkReach
  import Ref = WalkReference

  // ---------------------------------------------------------------- race rules hold the others back

  /** While a race rule is open, a rule judged in order neither commits nor sends a query, unless it is speculative. */
  lemma RaceBarrier(cfg: Config, steps: seq<Step>, s: Sys)
    requires WellFormed(cfg.rules) && Runs(cfg, Start(cfg), steps, s) && s.phase.Walking? && s.ws.armed != []
    requires s.ws.index < |cfg.rules| ==> !cfg.rules[s.ws.index].Races()
    ensures
      var r := RuleStep(cfg, s.ws, s.done);
      && !r.Commit?
      && (r.Suspend? ==> !r.suspension.Ready?)
      && (r.state.futures != s.ws.futures ==>
            var action := cfg.rules[s.ws.index].action;
            (action.Evaluate? && action.speculative) || (action.Route? && action.speculative))
  {
    if s.ws.index < |cfg.rules| {
      SettleKeeps(cfg, s.ws, s.done, 0);
      var now := if cfg.rules[s.ws.index].Binds() then Settle(cfg, s.ws, s.done) else s.ws;
      ActionBarrier(cfg, now, s.done);
    }
  }

  lemma ActionBarrier(cfg: Config, ws: WalkState, done: set<nat>)
    requires ws.index < |cfg.rules| && ws.armed != []
    ensures
      var r := ActionStep(cfg, ws, done);
      && !r.Commit?
      && (r.Suspend? ==> !r.suspension.Ready?)
      && (r.state.futures != ws.futures ==>
            var action := cfg.rules[ws.index].action;
            (action.Evaluate? && action.speculative) || (action.Route? && action.speculative))
  {
  }

  /** The result is that of a race rule whose bound answers are all in, in the environment it was armed in. */
  ghost predicate Earned(cfg: Config, futures: seq<Future>, done: set<nat>, o: Outcome) {
    exists i :: 0 <= i < |cfg.rules| && Ref.WinsWith(cfg, i, o) && Ref.BoundAt(cfg, i) <= AnsweredRules(futures, done)
  }

  lemma SweepEarned(cfg: Config, ws: WalkState, done: set<nat>, index: nat, terminal: Option<Future>)
    requires RespondBinding(cfg.rules) && EachArmedOk(cfg, ws, done) && OnCourse(cfg, ws, done) && ws.settled == done
    requires ResponsesOk(cfg, ws.namedFutures, done, ws.namedResponses, ws.namedTransports)
    requires FuturesOk(cfg, ws.futures, index, terminal)
    requires Sweep(cfg, ws, done).1.Some?
    ensures Earned(cfg, ws.futures, done, OutcomeOfVerdict(cfg, Sweep(cfg, ws, done).1.value))
  {
    SweepFromOk(cfg, ws, done, 0);
    var v := Sweep(cfg, ws, done).1.value;
    var a :| SweepWinner(cfg, ws, done, a, v);
    EachArmedFacts(cfg, ws, done);
    WinnerIndex(cfg, ws, done, a, v, index, terminal);
  }

  lemma ResumeEarned(cfg: Config, s: Sys)
    requires WellFormed(cfg.rules) && Inv(cfg, s) && s.phase.Resuming?
    requires Sweep(cfg, Settle(cfg, s.ws, s.done), s.done).1.Some?
    ensures Earned(cfg, s.ws.futures, s.done, OutcomeOfVerdict(cfg, Sweep(cfg, Settle(cfg, s.ws, s.done), s.done).1.value))
  {
    SettleOk(cfg, s.ws, s.done);
    SuspensionSettled(cfg, s.ws, s.done, s.phase.suspension);
    var now := Settle(cfg, s.ws, s.done);
    AllArmedAreEach(cfg, now, s.done);
    SweepFromOk(cfg, now, s.done, 0);
    ArmedSurvive(cfg, s.(ws := now), s.phase.suspension);
    SweepEarned(cfg, now, s.done, now.index, now.terminal);
  }

  /** The sweep of a race rule that is armed with nothing pending. */
  lemma ArmEarned(cfg: Config, now: WalkState, done: set<nat>)
    requires RespondBinding(cfg.rules) && WalkInv(cfg, now, done) && OnCourse(cfg, now, done) && now.settled == done
    requires now.index < |cfg.rules| && cfg.rules[now.index].Races()
    requires Sweep(cfg, now.(armed := now.armed + [EntryOf(cfg, now, done)]), done).1.Some?
    ensures
      var v := Sweep(cfg, now.(armed := now.armed + [EntryOf(cfg, now, done)]), done).1.value;
      Earned(cfg, now.futures, done, OutcomeOfVerdict(cfg, v))
  {
    assert RespondShape(cfg.rules[now.index]);
    AllArmedAreEach(cfg, now, done);
    EachArmedFacts(cfg, now, done);
    ArmCourse(cfg, now, done);
    ArmedEachOk(cfg, now, done);
    SweepIgnoresIndex(cfg, now.(armed := now.armed + [EntryOf(cfg, now, done)]), done, 0);
    SweepEarned(cfg, ArmedState(cfg, now, done), done, now.index, now.terminal);
  }

  /** If the turn of a race rule ends the walk, the result is earned. */
  ghost predicate StepEarned(cfg: Config, futures: seq<Future>, done: set<nat>, r: StepResult) {
    match r
    case Continue(_) => true
    case Commit(_, o) => Earned(cfg, futures, done, o)
    case Suspend(_, Ready(p)) => Earned(cfg, futures, done, Ref.ExchangeOf(cfg, p.rule, p.query))
    case Suspend(_, _) => false
  }

  lemma RaceActionEarned(cfg: Config, now: WalkState, done: set<nat>)
    requires RespondBinding(cfg.rules) && WalkInv(cfg, now, done) && OnCourse(cfg, now, done) && now.settled == done
    requires now.index < |cfg.rules| && cfg.rules[now.index].Races()
    ensures StepEarned(cfg, now.futures, done, RaceAction(cfg, now, done))
  {
    if Sweep(cfg, now.(armed := now.armed + [EntryOf(cfg, now, done)]), done).1.Some? {
      ArmEarned(cfg, now, done);
    }
  }

  lemma TurnEarned(cfg: Config, s: Sys)
    requires WellFormed(cfg.rules) && Inv(cfg, s) && s.phase.Walking?
    requires s.ws.index < |cfg.rules| && cfg.rules[s.ws.index].Races()
    ensures StepEarned(cfg, s.ws.futures, s.done, RuleStep(cfg, s.ws, s.done))
  {
    SettleOk(cfg, s.ws, s.done);
    CourseSettled(cfg, s.ws, s.done);
    RaceActionEarned(cfg, Settle(cfg, s.ws, s.done), s.done);
  }

  /**
   Wherever an armed rule commits, in the resume loop or in the walk when a race rule is armed with nothing pending,
   it has all its answers, and acts with what was fixed when it was passed.
   */
  lemma RaceCommit(cfg: Config, steps: seq<Step>, s: Sys)
    requires WellFormed(cfg.rules) && Runs(cfg, Start(cfg), steps, s)
    ensures s.phase.Resuming? && Sweep(cfg, Settle(cfg, s.ws, s.done), s.done).1.Some? ==>
      Earned(cfg, s.ws.futures, s.done, OutcomeOfVerdict(cfg, Sweep(cfg, Settle(cfg, s.ws, s.done), s.done).1.value))
    ensures s.phase.Walking? && s.ws.index < |cfg.rules| && cfg.rules[s.ws.index].Races() ==>
      StepEarned(cfg, s.ws.futures, s.done, RuleStep(cfg, s.ws, s.done))
  {
    StartInv(cfg);
    RunInv(cfg, Start(cfg), steps, s);
    if s.phase.Resuming? && Sweep(cfg, Settle(cfg, s.ws, s.done), s.done).1.Some? {
      ResumeEarned(cfg, s);
    }
    if s.phase.Walking? && s.ws.index < |cfg.rules| && cfg.rules[s.ws.index].Races() {
      TurnEarned(cfg, s);
    }
  }

  // ---------------------------------------------------------------- queries are sent once

  /** No rule sends two queries: launched queries belong to different rules, and a query sent at the end is new. */
  lemma QueriesSentOnce(cfg: Config, steps: seq<Step>, t: Sys)
    requires WellFormed(cfg.rules) && Runs(cfg, Start(cfg), steps, t)
    ensures forall j, k :: 0 <= j < k < |t.ws.futures| ==> t.ws.futures[j].rule < t.ws.futures[k].rule
    ensures t.phase.Finishing? && t.phase.pending.future.None? ==>
      forall k :: 0 <= k < |t.ws.futures| ==> t.ws.futures[k].rule != t.phase.pending.rule
    ensures t.phase.Finishing? && t.phase.pending.future.Some? ==>
      && Known(t.ws.futures, t.phase.pending.future.value)
      && t.phase.pending.future.value.query == t.phase.pending.query
  {
    StartInv(cfg);
    RunInv(cfg, Start(cfg), steps, t);
  }

  // ---------------------------------------------------------------- speculative routes

  /** Two rules that differ at most in the `speculative` flag of a route action. */
  predicate SameRule(r: Rule, q: Rule) {
    r == q || (r.action.Route? && q == r.(action := Route(r.action.server, !r.action.speculative, r.action.opts)))
  }

  ghost predicate SameList(cfg: Config, alt: Config) {
    && alt == cfg.(rules := alt.rules) && |alt.rules| == |cfg.rules|
    && forall i :: 0 <= i < |cfg.rules| ==> SameRule(cfg.rules[i], alt.rules[i])
  }

  lemma SameJudgement(cfg: Config, alt: Config, i: nat, env: Ref.Env)
    requires SameList(cfg, alt) && i < |cfg.rules|
    ensures Ref.Matches(cfg, i, env) == Ref.Matches(alt, i, env)
    ensures Ref.Conclude(cfg, i, env) == Ref.Conclude(alt, i, env)
    ensures Ref.Effect(cfg, i, env) == Ref.Effect(alt, i, env)
    ensures Ref.Holds(cfg, i, env) == Ref.Holds(alt, i, env)
    ensures Ref.Bound(cfg.rules[i], env) == Ref.Bound(alt.rules[i], env)
  {
    assert SameRule(cfg.rules[i], alt.rules[i]);
    SameSight(cfg, alt, i, env);
    SameResolve(cfg, alt, env);
  }

  lemma SameSight(cfg: Config, alt: Config, i: nat, env: Ref.Env)
    requires SameList(cfg, alt) && i < |cfg.rules|
    ensures Ref.Sight(cfg, cfg.rules[i], env) == Ref.Sight(alt, alt.rules[i], env)
  {
    assert SameRule(cfg.rules[i], alt.rules[i]);
  }

  lemma SameResolve(cfg: Config, alt: Config, env: Ref.Env)
    requires SameList(cfg, alt)
    ensures forall server, opts :: ResolveRoute(cfg, server, opts, env.options) == ResolveRoute(alt, server, opts, env.options)
    ensures forall t, o :: MakeQuery(cfg, t, o) == MakeQuery(alt, t, o)
  {
  }

  lemma {:induction false} SamePoints(cfg: Config, alt: Config, i: nat)
    requires SameList(cfg, alt) && i <= |cfg.rules|
    ensures Ref.PointAt(cfg, i) == Ref.PointAt(alt, i)
  {
    if i > 0 {
      SamePoints(cfg, alt, i - 1);
      SamePass(cfg, alt, i - 1, Ref.PointAt(cfg, i - 1));
    }
  }

  lemma SamePass(cfg: Config, alt: Config, i: nat, p: Ref.Point)
    requires SameList(cfg, alt) && i < |cfg.rules|
    ensures Ref.Pass(cfg, i, p) == Ref.Pass(alt, i, p)
  {
    assert SameRule(cfg.rules[i], alt.rules[i]);
    SameJudgement(cfg, alt, i, p.env);
  }

  lemma SameHits(cfg: Config, alt: Config, i: nat)
    requires SameList(cfg, alt) && i < |cfg.rules|
    ensures Ref.Hit(cfg, i) == Ref.Hit(alt, i)
    ensures Ref.BoundAt(cfg, i) == Ref.BoundAt(alt, i)
    ensures Ref.Judge(cfg, i, Ref.EnvAt(cfg, i)) == Ref.Judge(alt, i, Ref.EnvAt(alt, i))
  {
    SamePoints(cfg, alt, i);
    assert SameRule(cfg.rules[i], alt.rules[i]);
    SameJudgement(cfg, alt, i, Ref.EnvAt(cfg, i));
  }

  lemma SameWins(cfg: Config, alt: Config, i: nat, o: Outcome)
    requires SameList(cfg, alt) && i < |cfg.rules|
    ensures Ref.WinsWith(cfg, i, o) == Ref.WinsWith(alt, i, o)
  {
    SamePoints(cfg, alt, i);
    SameHits(cfg, alt, i);
    forall k | 0 <= k < i
      ensures Ref.Hit(cfg, k) == Ref.Hit(alt, k) && Ref.BoundAt(cfg, k) == Ref.BoundAt(alt, k)
    {
      SameHits(cfg, alt, k);
    }
  }

  lemma {:induction false} SameSequential(cfg: Config, alt: Config, i: nat, env: Ref.Env)
    requires SameList(cfg, alt) && i <= |cfg.rules|
    ensures Ref.Sequential(cfg, i, env) == Ref.Sequential(alt, i, env)
    decreases |cfg.rules| - i
  {
    if i < |cfg.rules| {
      assert SameRule(cfg.rules[i], alt.rules[i]);
      SameJudgement(cfg, alt, i, env);
      SameSequential(cfg, alt, i + 1, env);
      SameSequential(cfg, alt, i + 1, Ref.Effect(cfg, i, env));
    }
  }

  lemma SamePossible(cfg: Config, alt: Config, o: Outcome)
    requires SameList(cfg, alt)
    ensures Ref.Possible(cfg, o) == Ref.Possible(alt, o)
  {
    forall i | 0 <= i < |cfg.rules|
      ensures Ref.WinsWith(cfg, i, o) == Ref.WinsWith(alt, i, o) && Ref.Hit(cfg, i) == Ref.Hit(alt, i)
    {
      SameWins(cfg, alt, i, o);
      SameHits(cfg, alt, i);
    }
    SameSequential(cfg, alt, 0, Ref.InitialEnv(cfg));
  }

  lemma SameWellFormed(cfg: Config, alt: Config)
    requires SameList(cfg, alt) && WellFormed(cfg.rules)
    ensures WellFormed(alt.rules)
  {
    forall i, tag | 0 <= i < |cfg.rules|
      ensures Defines(alt.rules[i], tag) == Defines(cfg.rules[i], tag)
      ensures alt.rules[i].tags == cfg.rules[i].tags && RespondShape(alt.rules[i])
    {
      assert SameRule(cfg.rules[i], alt.rules[i]);
      assert RespondShape(cfg.rules[i]);
    }
    forall i, tag | 0 <= i < |alt.rules| && tag in alt.rules[i].tags
      ensures tag != Untagged && exists j :: 0 <= j < i && Defines(alt.rules[j], tag)
    {
      assert tag in cfg.rules[i].tags;
      var j :| 0 <= j < i && Defines(cfg.rules[j], tag);
      assert Defines(alt.rules[j], tag);
    }
  }

  /** Marking route rules speculative, or unmarking them, changes neither which results an exchange can end with. */
  lemma SpeculativeRouteIsNeutral(cfg: Config, alt: Config, o: Outcome)
    requires WellFormed(cfg.rules) && SameList(cfg, alt) && o != Cancelled
    ensures (exists t :: Reachable(cfg, t) && t.phase == Finished(o)) <==> (exists t :: Reachable(alt, t) && t.phase == Finished(o))
  {
    SameWellFormed(cfg, alt);
    SamePossible(cfg, alt, o);
    PossibleIffReached(cfg, o);
    PossibleIffReached(alt, o);
  }

  // ---------------------------------------------------------------- flags without effect

  function Unmarked(action: Action): Action {
    match action
    case Evaluate(server, tag, _, opts) => Evaluate(server, tag, false, opts)
    case Route(server, _, opts) => Route(server, false, opts)
    case SetOptions(_) => action
    case Respond => action
    case Reject(_) => action
    case Predefined => action
  }

  /** The list with the `speculative` flag of rule i removed. */
  function Unmark(cfg: Config, i: nat): Config
    requires i < |cfg.rules|
  {
    cfg.(rules := cfg.rules[i := cfg.rules[i].(action := Unmarked(cfg.rules[i].action))])
  }

  ghost predicate NoRaceUpTo(cfg: Config, i: nat)
    requires i < |cfg.rules|
  {
    forall k :: 0 <= k <= i ==> !cfg.rules[k].Races()
  }

  /** Nothing is armed as long as no race rule was passed. */
  predicate QuietUpTo(ws: WalkState, i: nat) {
    ws.index <= i ==> ws.armed == []
  }

  lemma ActionUnmarked(cfg: Config, i: nat, ws: WalkState, done: set<nat>)
    requires i < |cfg.rules| && ws.index < |cfg.rules| && QuietUpTo(ws, i)
    ensures ActionStep(cfg, ws, done) == ActionStep(Unmark(cfg, i), ws, done)
  {
    var alt := Unmark(cfg, i);
    assert forall server, opts, o :: ResolveRoute(cfg, server, opts, o) == ResolveRoute(alt, server, opts, o);
  }

  lemma OrderedUnmarked(cfg: Config, i: nat, ws: WalkState, done: set<nat>)
    requires i < |cfg.rules| && ws.index < |cfg.rules| && QuietUpTo(ws, i)
    ensures OrderedAction(cfg, ws, done) == OrderedAction(Unmark(cfg, i), ws, done)
  {
    ActionUnmarked(cfg, i, ws, done);
    assert ws.index != i ==> Unmark(cfg, i).rules[ws.index] == cfg.rules[ws.index];
  }

  lemma {:induction false} SettleUnmarked(cfg: Config, i: nat, ws: WalkState, done: set<nat>, k: nat)
    requires i < |cfg.rules| && k <= |ws.futures|
    ensures SettleFrom(cfg, ws, done, k) == SettleFrom(Unmark(cfg, i), ws, done, k)
    decreases |ws.futures| - k
  {
    if k < |ws.futures| {
      SettleUnmarked(cfg, i, ws, done, k + 1);
      SettleUnmarked(cfg, i, SettleOne(cfg, ws, ws.futures[k]), done, k + 1);
    }
  }

  lemma JudgeUnmarked(cfg: Config, i: nat, ws: WalkState, done: set<nat>, a: Armed)
    requires i < |cfg.rules|
    ensures JudgeArmed(cfg, ws, done, a) == JudgeArmed(Unmark(cfg, i), ws, done, a)
  {
    var alt := Unmark(cfg, i);
    assert forall server, opts, o :: ResolveRoute(cfg, server, opts, o) == ResolveRoute(alt, server, opts, o);
  }

  lemma {:induction false} SweepUnmarked(cfg: Config, i: nat, ws: WalkState, done: set<nat>, k: nat)
    requires i < |cfg.rules|
    ensures SweepFrom(cfg, ws, done, k) == SweepFrom(Unmark(cfg, i), ws, done, k)
    decreases |ws.armed| - k
  {
    if k >= |ws.armed| {
    } else if !ArmedReady(ws.armed[k], done) {
      SweepUnmarked(cfg, i, ws, done, k + 1);
    } else {
      JudgeUnmarked(cfg, i, ws, done, ws.armed[k]);
      SweepUnmarked(cfg, i, ws.(armed := ws.armed[..k] + ws.armed[k + 1..]), done, k);
    }
  }

  lemma RaceUnmarked(cfg: Config, i: nat, ws: WalkState, done: set<nat>)
    requires i < |cfg.rules| && ws.index < |cfg.rules| && ws.index != i
    ensures RaceAction(cfg, ws, done) == RaceAction(Unmark(cfg, i), ws, done)
  {
    assert Unmark(cfg, i).rules[ws.index] == cfg.rules[ws.index];
    SweepUnmarked(cfg, i, ws.(armed := ws.armed + [EntryOf(cfg, ws, done)]), done, 0);
  }

  lemma RuleStepUnmarked(cfg: Config, i: nat, ws: WalkState, done: set<nat>)
    requires i < |cfg.rules| && NoRaceUpTo(cfg, i) && QuietUpTo(ws, i)
    ensures RuleStep(cfg, ws, done) == RuleStep(Unmark(cfg, i), ws, done)
  {
    if ws.index < |cfg.rules| {
      var rule := cfg.rules[ws.index];
      assert ws.index != i ==> Unmark(cfg, i).rules[ws.index] == rule;
      SettleUnmarked(cfg, i, ws, done, 0);
      SettleKeeps(cfg, ws, done, 0);
      var now := if rule.Binds() then Settle(cfg, ws, done) else ws;
      if rule.Races() {
        RaceUnmarked(cfg, i, now, done);
      } else {
        OrderedUnmarked(cfg, i, now, done);
      }
    }
  }

  lemma ApplyUnmarked(cfg: Config, i: nat, s: Sys, step: Step)
    requires i < |cfg.rules| && NoRaceUpTo(cfg, i) && QuietUpTo(s.ws, i) && Enabled(s, step)
    ensures Apply(cfg, s, step) == Apply(Unmark(cfg, i), s, step)
  {
    match step
    case Turn => RuleStepUnmarked(cfg, i, s.ws, s.done);
    case Resume =>
      SettleUnmarked(cfg, i, s.ws, s.done, 0);
      SweepUnmarked(cfg, i, Settle(cfg, s.ws, s.done), s.done, 0);
    case Complete(_) =>
    case Wake =>
    case Finish =>
    case Cancel =>
  }

  lemma ActionQuiet(cfg: Config, ws: WalkState, done: set<nat>)
    requires ws.index < |cfg.rules|
    ensures ActionStep(cfg, ws, done).state.armed == ws.armed && ws.index <= ActionStep(cfg, ws, done).state.index
  {
  }

  lemma TurnQuiet(cfg: Config, i: nat, ws: WalkState, done: set<nat>)
    requires i < |cfg.rules| && NoRaceUpTo(cfg, i) && QuietUpTo(ws, i)
    ensures QuietUpTo(RuleStep(cfg, ws, done).state, i)
  {
    if ws.index <= i {
      SettleKeeps(cfg, ws, done, 0);
      var now := if cfg.rules[ws.index].Binds() then Settle(cfg, ws, done) else ws;
      ActionQuiet(cfg, now, done);
    } else if ws.index < |cfg.rules| {
      SettleKeeps(cfg, ws, done, 0);
      IndexGrows(cfg, ws, done);
    }
  }

  lemma IndexGrows(cfg: Config, ws: WalkState, done: set<nat>)
    requires ws.index < |cfg.rules|
    ensures ws.index <= RuleStep(cfg, ws, done).state.index
  {
    SettleKeeps(cfg, ws, done, 0);
    var now := if cfg.rules[ws.index].Binds() then Settle(cfg, ws, done) else ws;
    if cfg.rules[ws.index].Races() {
      SweepShrinks(cfg, now.(armed := now.armed + [EntryOf(cfg, now, done)]), done, 0);
    } else {
      ActionQuiet(cfg, now, done);
    }
  }

  lemma ApplyQuiet(cfg: Config, i: nat, s: Sys, step: Step)
    requires i < |cfg.rules| && NoRaceUpTo(cfg, i) && QuietUpTo(s.ws, i) && Enabled(s, step)
    ensures QuietUpTo(Apply(cfg, s, step).ws, i)
  {
    match step
    case Turn => TurnQuiet(cfg, i, s.ws, s.done);
    case Resume =>
      SettleKeeps(cfg, s.ws, s.done, 0);
      SweepShrinks(cfg, Settle(cfg, s.ws, s.done), s.done, 0);
    case Complete(_) =>
    case Wake =>
    case Finish =>
    case Cancel =>
  }

  lemma {:induction false} RunsUnmarked(cfg: Config, i: nat, s: Sys, steps: seq<Step>, t: Sys)
    requires i < |cfg.rules| && NoRaceUpTo(cfg, i) && QuietUpTo(s.ws, i)
    ensures Runs(cfg, s, steps, t) == Runs(Unmark(cfg, i), s, steps, t)
    decreases |steps|
  {
    if steps != [] && Enabled(s, steps[0]) {
      ApplyUnmarked(cfg, i, s, steps[0]);
      ApplyQuiet(cfg, i, s, steps[0]);
      RunsUnmarked(cfg, i, Apply(cfg, s, steps[0]), steps[1..], t);
    }
  }

  /** Without a race rule in front of it, the `speculative` flag of a rule changes no run at all. */
  lemma SpeculativeWithoutRace(cfg: Config, i: nat, steps: seq<Step>, t: Sys)
    requires i < |cfg.rules| && NoRaceUpTo(cfg, i)
    ensures Runs(cfg, Start(cfg), steps, t) <==> Runs(Unmark(cfg, i), Start(Unmark(cfg, i)), steps, t)
  {
    RunsUnmarked(cfg, i, Start(cfg), steps, t);
  }
}
