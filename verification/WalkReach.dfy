/** Every possible result is the result of some run: for each there is an order of answers that leads to it. */
module WalkReach {
  import opened Wrappers
  import opened DnsTypes
  import opened RuleWalk
  import opened WalkSystem
  import opened WalkSafety
  import opened WalkCourse
  import opened WalkTurns
  import opened WalkRuns
  import opened WalkProgress
  import Ref = WalkReference

  ghost predicate Reachable(cfg: Config, s: Sys) {
    exists steps :: Runs(cfg, Start(cfg), steps, s)
  }

  lemma ReachStep(cfg: Config, s: Sys, step: Step)
    requires Reachable(cfg, s) && Enabled(s, step)
    ensures Reachable(cfg, Apply(cfg, s, step))
  {
    var steps :| Runs(cfg, Start(cfg), steps, s);
    RunsOne(cfg, s, step);
    RunsAppend(cfg, Start(cfg), steps, s, [step], Apply(cfg, s, step));
  }

  // ---------------------------------------------------------------- no race rule hits

  /** An exchange that nobody cancels ends with an answer. */
  lemma {:induction false} RunsOut(cfg: Config, s: Sys) returns (t: Sys)
    requires WellFormed(cfg.rules) && Reachable(cfg, s) && Inv(cfg, s) && s.phase != Finished(Cancelled)
    ensures Reachable(cfg, t) && t.phase.Finished? && t.phase != Finished(Cancelled)
    decreases RulesLeft(cfg, s), Open(|s.ws.futures|, s.done), Token(s), ArmedLeft(s), PhaseRank(s)
  {
    if s.phase.Finished? {
      t := s;
    } else {
      var steps :| Runs(cfg, Start(cfg), steps, s);
      NotStuck(cfg, steps, s);
      var step :| step != Cancel && Enabled(s, step);
      var next := Apply(cfg, s, step);
      ReachStep(cfg, s, step);
      StepInv(cfg, s, step);
      StepDescends(cfg, s, step);
      NotCancelled(cfg, s, step);
      t := RunsOut(cfg, next);
    }
  }

  lemma NotCancelled(cfg: Config, s: Sys, step: Step)
    requires Enabled(s, step) && step != Cancel && s.phase != Finished(Cancelled)
    ensures Apply(cfg, s, step).phase != Finished(Cancelled)
  {
    match step
    case Turn => TurnNotCancelled(cfg, s.ws, s.done);
    case Resume => SweepNotCancelled(cfg, Settle(cfg, s.ws, s.done), s.done, 0);
    case Complete(_) =>
    case Wake =>
    case Finish =>
  }

  predicate Committed(r: StepResult, o: Outcome) {
    r.Commit? && r.outcome == o
  }

  lemma TurnNotCancelled(cfg: Config, ws: WalkState, done: set<nat>)
    ensures !Committed(RuleStep(cfg, ws, done), Cancelled)
  {
    if ws.index < |cfg.rules| {
      SettleKeeps(cfg, ws, done, 0);
      var now := if cfg.rules[ws.index].Binds() then Settle(cfg, ws, done) else ws;
      RaceNotCancelled(cfg, now, done);
      ActionNotCancelled(cfg, now, done);
    }
  }

  lemma ActionNotCancelled(cfg: Config, ws: WalkState, done: set<nat>)
    requires ws.index < |cfg.rules|
    ensures !Committed(ActionStep(cfg, ws, done), Cancelled)
  {
  }

  lemma RaceNotCancelled(cfg: Config, ws: WalkState, done: set<nat>)
    requires ws.index < |cfg.rules|
    ensures !Committed(RaceAction(cfg, ws, done), Cancelled)
  {
    SweepNotCancelled(cfg, ws.(armed := ws.armed + [EntryOf(cfg, ws, done)]), done, 0);
  }

  lemma {:induction false} SweepNotCancelled(cfg: Config, ws: WalkState, done: set<nat>, k: nat)
    ensures SweepFrom(cfg, ws, done, k).1 != Some(Final(Cancelled))
    decreases |ws.armed| - k
  {
    if k >= |ws.armed| {
    } else if !ArmedReady(ws.armed[k], done) {
      SweepNotCancelled(cfg, ws, done, k + 1);
    } else {
      SweepNotCancelled(cfg, ws.(armed := ws.armed[..k] + ws.armed[k + 1..]), done, k);
    }
  }

  lemma SequentialIsReached(cfg: Config)
    requires WellFormed(cfg.rules) && Ref.NoHit(cfg)
    ensures exists t :: Reachable(cfg, t) && t.phase == Finished(Ref.Sequential(cfg, 0, Ref.InitialEnv(cfg)))
  {
    StartInv(cfg);
    assert Runs(cfg, Start(cfg), [], Start(cfg));
    var t := RunsOut(cfg, Start(cfg));
    var steps :| Runs(cfg, Start(cfg), steps, t);
    OutcomeIsPossible(cfg, steps, t);
  }

  // ---------------------------------------------------------------- a race rule wins

  /** What an exchange has to wait for until rule i is passed stays part of what it has waited for. */
  lemma {:induction false} WaitedGrows(cfg: Config, i: nat, j: nat)
    requires i < j <= |cfg.rules| && !Ref.PointAt(cfg, j).ended
    ensures Ref.PointAt(cfg, i + 1).waited <= Ref.PointAt(cfg, j).waited && !Ref.PointAt(cfg, i + 1).ended
    decreases j - i
  {
    if i + 1 < j {
      assert Ref.PointAt(cfg, j) == Ref.Pass(cfg, j - 1, Ref.PointAt(cfg, j - 1));
      WaitedGrows(cfg, i, j - 1);
    }
  }

  /** The answers a winning rule needs. */
  function Needs(cfg: Config, j: nat): set<nat>
    requires j < |cfg.rules|
  {
    Ref.PointAt(cfg, j).waited + Ref.BoundAt(cfg, j)
  }

  /** An ordered rule before the winner needs no more than the winner. */
  lemma OrderedNeeds(cfg: Config, i: nat, j: nat)
    requires i < j < |cfg.rules| && !Ref.PointAt(cfg, j).ended && !cfg.rules[i].Races()
    ensures Ref.BoundAt(cfg, i) <= Needs(cfg, j)
    ensures Ref.Matches(cfg, i, Ref.EnvAt(cfg, i)) ==> Ref.Conclude(cfg, i, Ref.EnvAt(cfg, i)).None?
    ensures Ref.Matches(cfg, i, Ref.EnvAt(cfg, i)) && Ref.Holds(cfg, i, Ref.EnvAt(cfg, i)) ==>
      Ref.PointAt(cfg, i).joined <= Needs(cfg, j)
  {
    WaitedGrows(cfg, i, j);
    assert Ref.PointAt(cfg, i + 1) == Ref.Pass(cfg, i, Ref.PointAt(cfg, i));
  }

  ghost predicate WithinNeeds(cfg: Config, j: nat, futures: seq<Future>, done: set<nat>)
    requires j < |cfg.rules|
  {
    AnsweredRules(futures, done) <= Needs(cfg, j)
  }

  /** Every needed query that was sent is answered. */
  ghost predicate NeedsAnswered(cfg: Config, j: nat, futures: seq<Future>, done: set<nat>)
    requires j < |cfg.rules|
  {
    forall k :: 0 <= k < |futures| && futures[k].rule in Needs(cfg, j) ==> k in done
  }

  /** While only needed answers arrive, no rule before the winner is ready to commit. */
  lemma NoEarlyWinner(cfg: Config, ws: WalkState, done: set<nat>, j: nat, a: Armed, v: Verdict)
    requires Ref.Winnable(cfg, j) && OnCourse(cfg, ws, done) && EachArmedOk(cfg, ws, done)
    requires WithinNeeds(cfg, j, ws.futures, done)
    requires SweepWinner(cfg, ws, done, a, v)
    ensures j <= a.index
  {
    EachArmedFacts(cfg, ws, done);
    assert Faithful(cfg, ws.futures, ws.namedFutures, done, a);
    ReadyAnswered(cfg, ws.futures, ws.namedFutures, done, a);
    assert Ref.Hit(cfg, a.index);
  }

  /** A pending future of a rule that needs no more than the winner is answered already. */
  lemma NothingPending(cfg: Config, ws: WalkState, done: set<nat>, j: nat, rule: Rule)
    requires j < |cfg.rules| && NamesOk(ws.futures, ws.namedFutures, ws.anon)
    requires Ref.Bound(rule, EnvOf(ws)) <= Needs(cfg, j) && NeedsAnswered(cfg, j, ws.futures, done)
    ensures PendingOf(ws.namedFutures, ws.anon, rule, done) == []
  {
    var pending := PendingOf(ws.namedFutures, ws.anon, rule, done);
    if pending != [] {
      EntryBound(ws, rule, done);
      PendingIsKnown(ws, rule, done);
      assert false;
    }
  }

  /** The exchange on its way to rule j: only needed answers have arrived. */
  ghost predicate Heading(cfg: Config, s: Sys, j: nat) {
    && j < |cfg.rules| && s.ws.index <= j
    && Inv(cfg, s) && WithinNeeds(cfg, j, s.ws.futures, s.done)
    && (s.phase.Walking? || (s.phase == Resuming(Drain) && AtHold(cfg, s.ws) && s.ws.index < j))
  }

  /** The walk stands at a matched rule that must not act before the race rules in front of it are decided. */
  ghost predicate AtHold(cfg: Config, ws: WalkState) {
    && ws.index < |cfg.rules| && !cfg.rules[ws.index].Races()
    && Ref.Matches(cfg, ws.index, EnvOf(ws)) && Ref.Holds(cfg, ws.index, EnvOf(ws))
  }

  lemma AnsweredPlus(futures: seq<Future>, done: set<nat>, id: nat, needs: set<nat>)
    requires AnsweredRules(futures, done) <= needs && id < |futures| && futures[id].rule in needs
    ensures AnsweredRules(futures, done + {id}) <= needs
  {
    forall r | r in AnsweredRules(futures, done + {id})
      ensures r in needs
    {
      var k :| 0 <= k < |futures| && k in done + {id} && futures[k].rule == r;
      if k != id {
        assert futures[k].rule in AnsweredRules(futures, done);
      }
    }
  }

  /** At a rule in front of the winner the walk goes on, or is held by the race rules. */
  lemma ActionBeforeWinner(cfg: Config, ws: WalkState, done: set<nat>)
    requires Judgeable(cfg, ws, done) && Ref.Matches(cfg, ws.index, EnvOf(ws)) && Ref.Conclude(cfg, ws.index, EnvOf(ws)).None?
    ensures
      var r := ActionStep(cfg, ws, done);
      r.Continue? || (r == Suspend(ws, Drain) && AtHold(cfg, ws))
  {
  }

  lemma OrderedBeforeWinner(cfg: Config, ws: WalkState, done: set<nat>, j: nat)
    requires WellFormed(cfg.rules) && WalkInv(cfg, ws, done) && OnCourse(cfg, ws, done)
    requires ws.index < j < |cfg.rules| && !cfg.rules[ws.index].Races() && (cfg.rules[ws.index].Binds() ==> ws.settled == done)
    requires !Ref.PointAt(cfg, j).ended && NeedsAnswered(cfg, j, ws.futures, done)
    ensures
      var r := OrderedAction(cfg, ws, done);
      r.Continue? || (r == Suspend(ws, Drain) && AtHold(cfg, ws))
  {
    OrderedNeeds(cfg, ws.index, j);
    NothingPending(cfg, ws, done, j, cfg.rules[ws.index]);
    OrderedMatches(cfg, ws, done);
    if Ref.Matches(cfg, ws.index, EnvOf(ws)) {
      ActionBeforeWinner(cfg, ws, done);
    }
  }

  lemma RaceBeforeWinner(cfg: Config, now: WalkState, done: set<nat>, j: nat)
    requires WellFormed(cfg.rules) && WalkInv(cfg, now, done) && OnCourse(cfg, now, done) && now.settled == done
    requires now.index < j < |cfg.rules| && cfg.rules[now.index].Races() && Ref.Winnable(cfg, j)
    requires WithinNeeds(cfg, j, now.futures, done)
    ensures RaceAction(cfg, now, done).Continue?
  {
    if EntryOf(cfg, now, done).pending == [] {
      RaceSweepResult(cfg, now, done);
      var (swept, verdict) := Sweep(cfg, now.(armed := now.armed + [EntryOf(cfg, now, done)]), done);
      if verdict.Some? {
        var a :| SweepWinner(cfg, ArmedState(cfg, now, done), done, a, verdict.value);
        NoEarlyWinner(cfg, ArmedState(cfg, now, done), done, j, a, verdict.value);
        EachArmedFacts(cfg, ArmedState(cfg, now, done), done);
        assert false;
      }
    }
  }

  /** The sweep at a race rule, seen from the state in which the rule is armed. */
  lemma RaceSweepResult(cfg: Config, now: WalkState, done: set<nat>)
    requires WellFormed(cfg.rules) && WalkInv(cfg, now, done) && OnCourse(cfg, now, done) && now.settled == done
    requires now.index < |cfg.rules| && cfg.rules[now.index].Races()
    ensures
      var armed := ArmedState(cfg, now, done);
      var (swept, verdict) := Sweep(cfg, now.(armed := now.armed + [EntryOf(cfg, now, done)]), done);
      && EachArmedOk(cfg, armed, done) && OnCourse(cfg, armed, done)
      && SweepResult(cfg, armed, done, Next(swept), verdict)
  {
    assert RespondShape(cfg.rules[now.index]);
    AllArmedAreEach(cfg, now, done);
    EachArmedFacts(cfg, now, done);
    ArmCourse(cfg, now, done);
    ArmedEachOk(cfg, now, done);
    SweepIgnoresIndex(cfg, now.(armed := now.armed + [EntryOf(cfg, now, done)]), done, 0);
    SweepFromOk(cfg, ArmedState(cfg, now, done), done, 0);
  }

  /** At the winner, with its answers in, the sweep chooses it. */
  lemma WinnerChosen(cfg: Config, armed: WalkState, done: set<nat>, entry: Armed, swept: WalkState, verdict: Option<Verdict>)
    requires Ref.Winnable(cfg, entry.index) && EachArmedOk(cfg, armed, done) && OnCourse(cfg, armed, done)
    requires armed.index == entry.index + 1 && entry in armed.armed && ArmedReady(entry, done)
    requires SweepResult(cfg, armed, done, swept, verdict)
    requires WithinNeeds(cfg, entry.index, armed.futures, done)
    ensures verdict.Some?
    ensures OutcomeOfVerdict(cfg, verdict.value) == Ref.Judge(cfg, entry.index, Ref.EnvAt(cfg, entry.index)).value
    ensures verdict.value.Send? ==> verdict.value.pending.future.None?
  {
    assert Faithful(cfg, armed.futures, armed.namedFutures, done, entry);
    assert verdict.Some?;
    var a :| SweepWinner(cfg, armed, done, a, verdict.value);
    NoEarlyWinner(cfg, armed, done, entry.index, a, verdict.value);
    EachArmedFacts(cfg, armed, done);
    assert Faithful(cfg, armed.futures, armed.namedFutures, done, a);
    JudgeSends(cfg, armed, done, a);
  }

  lemma JudgeSends(cfg: Config, ws: WalkState, done: set<nat>, a: Armed)
    ensures
      var v := JudgeArmed(cfg, ws, done, a);
      v.Some? && v.value.Send? ==> v.value.pending.future.None?
  {
  }

  ghost predicate Commits(cfg: Config, r: StepResult, o: Outcome) {
    || (r.Commit? && r.outcome == o)
    || (r.Suspend? && r.suspension.Ready? && r.state.armed == [] && r.suspension.pending.future.None?
        && Ref.ExchangeOf(cfg, r.suspension.pending.rule, r.suspension.pending.query) == o)
  }

  lemma WinnerCommits(cfg: Config, now: WalkState, done: set<nat>)
    requires WellFormed(cfg.rules) && WalkInv(cfg, now, done) && OnCourse(cfg, now, done) && now.settled == done
    requires now.index < |cfg.rules| && Ref.Winnable(cfg, now.index)
    requires WithinNeeds(cfg, now.index, now.futures, done) && NeedsAnswered(cfg, now.index, now.futures, done)
    ensures Commits(cfg, RaceAction(cfg, now, done), Ref.Judge(cfg, now.index, Ref.EnvAt(cfg, now.index)).value)
  {
    var entry := EntryOf(cfg, now, done);
    NothingPending(cfg, now, done, now.index, cfg.rules[now.index]);
    RaceSweepResult(cfg, now, done);
    var (swept, verdict) := Sweep(cfg, now.(armed := now.armed + [entry]), done);
    WinnerChosen(cfg, ArmedState(cfg, now, done), done, entry, Next(swept), verdict);
  }

  /** Sending the query of the winner. */
  lemma SendWinner(cfg: Config, s: Sys, p: Pending) returns (t: Sys)
    requires Reachable(cfg, s) && s.phase == Resuming(Ready(p)) && s.ws.armed == [] && p.future.None?
    ensures Reachable(cfg, t) && t.phase == Finished(Ref.ExchangeOf(cfg, p.rule, p.query))
  {
    SettleKeeps(cfg, s.ws, s.done, 0);
    assert Settle(cfg, s.ws, s.done).armed == [];
    ReachStep(cfg, s, Resume);
    var u := Apply(cfg, s, Resume);
    ReachStep(cfg, u, Finish);
    t := Apply(cfg, u, Finish);
  }

  lemma SettledWinnerCommits(cfg: Config, ws: WalkState, done: set<nat>)
    requires WellFormed(cfg.rules) && WalkInv(cfg, ws, done) && OnCourse(cfg, ws, done)
    requires ws.index < |cfg.rules| && Ref.Winnable(cfg, ws.index)
    requires WithinNeeds(cfg, ws.index, ws.futures, done) && NeedsAnswered(cfg, ws.index, ws.futures, done)
    ensures Commits(cfg, RuleStep(cfg, ws, done), Ref.Judge(cfg, ws.index, Ref.EnvAt(cfg, ws.index)).value)
  {
    SettleOk(cfg, ws, done);
    CourseSettled(cfg, ws, done);
    WinnerCommits(cfg, Settle(cfg, ws, done), done);
  }

  lemma TurnAtWinner(cfg: Config, s: Sys) returns (t: Sys)
    requires WellFormed(cfg.rules) && Reachable(cfg, s) && s.phase.Walking? && s.ws.index < |cfg.rules|
    requires Ref.Winnable(cfg, s.ws.index) && Heading(cfg, s, s.ws.index) && NeedsAnswered(cfg, s.ws.index, s.ws.futures, s.done)
    ensures Reachable(cfg, t) && t.phase == Finished(Ref.Judge(cfg, s.ws.index, Ref.EnvAt(cfg, s.ws.index)).value)
  {
    SettledWinnerCommits(cfg, s.ws, s.done);
    ReachStep(cfg, s, Turn);
    var r := RuleStep(cfg, s.ws, s.done);
    var u := Apply(cfg, s, Turn);
    if r.Commit? {
      t := u;
    } else {
      t := SendWinner(cfg, u, r.suspension.pending);
    }
  }

  /** A turn in front of the winner. */
  lemma TurnBeforeWinner(cfg: Config, s: Sys, j: nat)
    requires WellFormed(cfg.rules) && Heading(cfg, s, j) && s.phase.Walking? && s.ws.index < j && Ref.Winnable(cfg, j)
    requires NeedsAnswered(cfg, j, s.ws.futures, s.done)
    ensures Heading(cfg, Apply(cfg, s, Turn), j)
  {
    StepInv(cfg, s, Turn);
    SettleOk(cfg, s.ws, s.done);
    var rule := cfg.rules[s.ws.index];
    var now := if rule.Binds() then Settle(cfg, s.ws, s.done) else s.ws;
    assert EnvOf(now) == EnvOf(s.ws);
    if rule.Races() {
      RaceBeforeWinner(cfg, now, s.done, j);
    } else {
      OrderedBeforeWinner(cfg, now, s.done, j);
    }
    var r := RuleStep(cfg, s.ws, s.done);
    assert r.Continue? || (r == Suspend(now, Drain) && AtHold(cfg, now));
    RuleStepDescends(cfg, s.ws, s.done);
    TurnAnswers(cfg, s.ws, s.done);
  }

  /** A turn answers no query. */
  lemma TurnAnswers(cfg: Config, ws: WalkState, done: set<nat>)
    requires WalkInv(cfg, ws, done)
    ensures AnsweredRules(RuleStep(cfg, ws, done).state.futures, done) == AnsweredRules(ws.futures, done)
  {
    SettleKeeps(cfg, ws, done, 0);
    RuleStepFutures(cfg, ws, done);
    var futures := RuleStep(cfg, ws, done).state.futures;
    if futures != ws.futures {
      AnsweredLaunch(ws.futures, ws.settled, done, futures[|ws.futures|]);
    }
  }

  ghost predicate OneMore(before: seq<Future>, after: seq<Future>) {
    after == before || (|after| == |before| + 1 && after == before + [after[|before|]])
  }

  lemma ActionFutures(cfg: Config, ws: WalkState, done: set<nat>)
    requires ws.index < |cfg.rules|
    ensures OneMore(ws.futures, ActionStep(cfg, ws, done).state.futures)
  {
  }

  lemma OrderedFutures(cfg: Config, ws: WalkState, done: set<nat>)
    requires ws.index < |cfg.rules|
    ensures OneMore(ws.futures, OrderedAction(cfg, ws, done).state.futures)
  {
    ActionFutures(cfg, ws, done);
  }

  lemma RaceFutures(cfg: Config, ws: WalkState, done: set<nat>)
    requires ws.index < |cfg.rules|
    ensures RaceAction(cfg, ws, done).state.futures == ws.futures
  {
    SweepShrinks(cfg, ws.(armed := ws.armed + [EntryOf(cfg, ws, done)]), done, 0);
  }

  /** A turn sends at most one query. */
  lemma RuleStepFutures(cfg: Config, ws: WalkState, done: set<nat>)
    ensures OneMore(ws.futures, RuleStep(cfg, ws, done).state.futures)
  {
    if ws.index < |cfg.rules| {
      SettleKeeps(cfg, ws, done, 0);
      var now := if cfg.rules[ws.index].Binds() then Settle(cfg, ws, done) else ws;
      if cfg.rules[ws.index].Races() {
        RaceFutures(cfg, now, done);
      } else {
        OrderedFutures(cfg, now, done);
      }
    }
  }

  /** A held rule in front of the winner is let go: the race rules it waits for are all decided, and missed. */
  lemma ResumeBeforeWinner(cfg: Config, s: Sys, j: nat)
    requires WellFormed(cfg.rules) && Heading(cfg, s, j) && s.phase == Resuming(Drain) && Ref.Winnable(cfg, j)
    requires NeedsAnswered(cfg, j, s.ws.futures, s.done)
    ensures Heading(cfg, Apply(cfg, s, Resume), j)
  {
    StepInv(cfg, s, Resume);
    SettledBeforeWinner(cfg, s.ws, s.done, j);
    LetGo(cfg, s);
  }

  lemma SettledBeforeWinner(cfg: Config, ws: WalkState, done: set<nat>, j: nat)
    requires RespondBinding(cfg.rules) && WalkInv(cfg, ws, done) && OnCourse(cfg, ws, done)
    requires AtHold(cfg, ws) && ws.index < j < |cfg.rules| && Ref.Winnable(cfg, j)
    requires WithinNeeds(cfg, j, ws.futures, done) && NeedsAnswered(cfg, j, ws.futures, done)
    ensures Sweep(cfg, Settle(cfg, ws, done), done) == (Settle(cfg, ws, done).(armed := []), None)
  {
    SettleOk(cfg, ws, done);
    CourseSettled(cfg, ws, done);
    assert EnvOf(Settle(cfg, ws, done)) == EnvOf(ws);
    SweepBeforeWinner(cfg, Settle(cfg, ws, done), done, j);
  }

  /** When the sweep empties the armed list without a verdict, a drained walk goes on. */
  lemma LetGo(cfg: Config, s: Sys)
    requires s.phase == Resuming(Drain)
    requires Sweep(cfg, Settle(cfg, s.ws, s.done), s.done) == (Settle(cfg, s.ws, s.done).(armed := []), None)
    ensures
      var t := Apply(cfg, s, Resume);
      t.phase == Walking && t.done == s.done && t.ws.index == s.ws.index && t.ws.futures == s.ws.futures
  {
    SettleKeeps(cfg, s.ws, s.done, 0);
  }

  lemma SweepBeforeWinner(cfg: Config, now: WalkState, done: set<nat>, j: nat)
    requires RespondBinding(cfg.rules) && WalkInv(cfg, now, done) && now.settled == done && OnCourse(cfg, now, done)
    requires AtHold(cfg, now) && now.index < j < |cfg.rules| && Ref.Winnable(cfg, j)
    requires WithinNeeds(cfg, j, now.futures, done) && NeedsAnswered(cfg, j, now.futures, done)
    ensures Sweep(cfg, now, done) == (now.(armed := []), None)
  {
    AllArmedAreEach(cfg, now, done);
    SweepFromOk(cfg, now, done, 0);
    var (swept, verdict) := Sweep(cfg, now, done);
    if verdict.Some? {
      var a :| SweepWinner(cfg, now, done, a, verdict.value);
      NoEarlyWinner(cfg, now, done, j, a, verdict.value);
      EachArmedFacts(cfg, now, done);
      assert false;
    }
    HeldAreReady(cfg, now, done, j);
    if swept.armed != [] {
      SomeArmed(swept.armed);
      assert false;
    }
  }

  lemma SomeArmed(armed: seq<Armed>)
    requires armed != []
    ensures exists a :: a in armed
  {
    assert armed[0] in armed;
  }

  lemma {:induction false} JoinedCovers(cfg: Config, i: nat, k: nat)
    requires k < i <= |cfg.rules| && cfg.rules[k].Races() && !Ref.PointAt(cfg, i).ended
    ensures Ref.BoundAt(cfg, k) <= Ref.PointAt(cfg, i).joined
  {
    assert Ref.PointAt(cfg, i) == Ref.Pass(cfg, i - 1, Ref.PointAt(cfg, i - 1));
    if k < i - 1 {
      JoinedCovers(cfg, i - 1, k);
    }
  }

  /** At a held rule in front of the winner, every armed rule has its answers. */
  lemma HeldAreReady(cfg: Config, ws: WalkState, done: set<nat>, j: nat)
    requires OnCourse(cfg, ws, done) && EachArmedOk(cfg, ws, done) && AtHold(cfg, ws) && ws.index < j < |cfg.rules|
    requires !Ref.PointAt(cfg, j).ended && NeedsAnswered(cfg, j, ws.futures, done)
    ensures forall a :: a in ws.armed ==> ArmedReady(a, done)
  {
    OrderedNeeds(cfg, ws.index, j);
    EachArmedFacts(cfg, ws, done);
    forall a | a in ws.armed
      ensures ArmedReady(a, done)
    {
      JoinedCovers(cfg, ws.index, a.index);
      assert Faithful(cfg, ws.futures, ws.namedFutures, done, a);
      forall f | f in a.pending
        ensures f.id in done
      {
        assert f.rule in Ref.BoundAt(cfg, a.index);
        assert ws.futures[f.id].rule in Needs(cfg, j);
      }
    }
  }

  lemma AnswerNeeded(cfg: Config, s: Sys, k: nat, j: nat)
    requires WellFormed(cfg.rules) && Heading(cfg, s, j)
    requires k < |s.ws.futures| && s.ws.futures[k].rule in Needs(cfg, j) && k !in s.done
    ensures Heading(cfg, Apply(cfg, s, Complete(k)), j)
  {
    StepInv(cfg, s, Complete(k));
    AnsweredPlus(s.ws.futures, s.done, k, Needs(cfg, j));
  }

  /** Rule j has its answers, and it is its turn. */
  ghost predicate AtWinner(cfg: Config, s: Sys, j: nat)
    requires j < |cfg.rules|
  {
    s.phase.Walking? && s.ws.index == j && NeedsAnswered(cfg, j, s.ws.futures, s.done)
  }

  /** The next step towards the turn of rule j: an answer it needs, or what the walk does by itself. */
  lemma EagerStep(cfg: Config, s: Sys, j: nat) returns (step: Step)
    requires WellFormed(cfg.rules) && Ref.Winnable(cfg, j) && Heading(cfg, s, j) && !AtWinner(cfg, s, j)
    ensures Enabled(s, step) && Heading(cfg, Apply(cfg, s, step), j)
  {
    if !NeedsAnswered(cfg, j, s.ws.futures, s.done) {
      var k :| 0 <= k < |s.ws.futures| && s.ws.futures[k].rule in Needs(cfg, j) && k !in s.done;
      AnswerNeeded(cfg, s, k, j);
      step := Complete(k);
    } else if s.phase.Resuming? {
      ResumeBeforeWinner(cfg, s, j);
      step := Resume;
    } else {
      TurnBeforeWinner(cfg, s, j);
      step := Turn;
    }
  }

  /** Answering only what rule j needs, and answering it first, leads to the result of rule j. */
  lemma {:induction false} EagerWins(cfg: Config, s: Sys, j: nat) returns (t: Sys)
    requires WellFormed(cfg.rules) && Reachable(cfg, s) && Ref.Winnable(cfg, j) && Heading(cfg, s, j)
    ensures Reachable(cfg, t) && t.phase == Finished(Ref.Judge(cfg, j, Ref.EnvAt(cfg, j)).value)
    decreases RulesLeft(cfg, s), Open(|s.ws.futures|, s.done), Token(s), ArmedLeft(s), PhaseRank(s)
  {
    if AtWinner(cfg, s, j) {
      t := TurnAtWinner(cfg, s);
    } else {
      var step := EagerStep(cfg, s, j);
      ReachStep(cfg, s, step);
      StepDescends(cfg, s, step);
      t := EagerWins(cfg, Apply(cfg, s, step), j);
    }
  }

  // ---------------------------------------------------------------- the exact result set

  /** The possible results are exactly the results of the runs that nobody cancels. */
  lemma PossibleIffReached(cfg: Config, o: Outcome)
    requires WellFormed(cfg.rules) && o != Cancelled
    ensures Ref.Possible(cfg, o) <==> exists t :: Reachable(cfg, t) && t.phase == Finished(o)
  {
    if exists t :: Reachable(cfg, t) && t.phase == Finished(o) {
      var t :| Reachable(cfg, t) && t.phase == Finished(o);
      var steps :| Runs(cfg, Start(cfg), steps, t);
      OutcomeIsPossible(cfg, steps, t);
    }
    if Ref.Possible(cfg, o) {
      if j :| 0 <= j < |cfg.rules| && Ref.WinsWith(cfg, j, o) {
        StartInv(cfg);
        assert Runs(cfg, Start(cfg), [], Start(cfg));
        var t := EagerWins(cfg, Start(cfg), j);
      } else {
        SequentialIsReached(cfg);
      }
    }
  }
}
