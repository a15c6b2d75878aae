/**
 What happens when an answer arrives inside a turn.

 A turn settles the answers that are in and then scans which of the rule's responses are resolved. The two are not
 done under a lock. `SplitTurn` is a turn in which answers arrive between the two: `early` are in before settling,
 `late` before scanning.
 */
module WalkWindow {
  import opened Wrappers
  import opened DnsTypes
  import opened RuleWalk
  import opened WalkSystem
  import opened WalkSafety
  import Ref = WalkReference

  function SplitTurn(cfg: Config, ws: WalkState, early: set<nat>, late: set<nat>): StepResult
    requires ws.index < |cfg.rules|
  {
    SettleKeeps(cfg, ws, early, 0);
    OrderedAction(cfg, Settle(cfg, ws, early), late)
  }

  /** What the rule sees in such a turn. */
  function SplitView(cfg: Config, ws: WalkState, rule: Rule, early: set<nat>, late: set<nat>): View {
    BoundView(rule, Settle(cfg, ws, early).namedResponses, ViewOfOption(cfg, late, ws.anon))
  }

  /** A tagged response of the rule arrived in the window, and it is not a failure. */
  ghost predicate AnswerInWindow(cfg: Config, ws: WalkState, rule: Rule, early: set<nat>) {
    exists t :: t in rule.tags && t in ws.namedFutures && ws.namedFutures[t].id !in early && AnswerOf(cfg, ws.namedFutures[t]).Some?
  }

  /** The view after settling `early`, compared with the finished responses. */
  lemma ViewAfterSettling(cfg: Config, now: WalkState, rule: Rule, early: set<nat>, shown: Option<Msg>)
    requires ResponsesOk(cfg, now.namedFutures, early, now.namedResponses, now.namedTransports)
    requires rule.anonymous ==> shown == Ref.ResultOf(cfg, EvalOfOption(now.anon))
    ensures BoundView(rule, now.namedResponses, shown) == Ref.Sight(cfg, rule, EnvOf(now)) <==> !AnswerInWindow(cfg, now, rule, early)
  {
    var seen, full := BoundView(rule, now.namedResponses, shown), Ref.Sight(cfg, rule, EnvOf(now));
    forall t | t in rule.tags
      ensures seen.named[t] == full.named[t]
        <==> !(t in now.namedFutures && now.namedFutures[t].id !in early && AnswerOf(cfg, now.namedFutures[t]).Some?)
    {
    }
    assert seen.named == full.named <==> forall t :: t in rule.tags ==> seen.named[t] == full.named[t];
  }

  /** A rule that goes on to match sees the finished responses exactly when none of its tagged answers arrived in the window. */
  lemma WindowView(cfg: Config, ws: WalkState, rule: Rule, early: set<nat>, late: set<nat>)
    requires WalkInv(cfg, ws, early) && early <= late && PendingOf(ws.namedFutures, ws.anon, rule, late) == []
    ensures SplitView(cfg, ws, rule, early, late) == Ref.Sight(cfg, rule, EnvOf(ws)) <==> !AnswerInWindow(cfg, ws, rule, early)
  {
    SettleOk(cfg, ws, early);
    var now := Settle(cfg, ws, early);
    assert EnvOf(now) == EnvOf(ws);
    PendingOfSpec(ws.namedFutures, ws.anon, rule, late);
    ViewAfterSettling(cfg, now, rule, early, ViewOfOption(cfg, late, ws.anon));
  }

  // ---------------------------------------------------------------- the same window in the resume loop

  /** What a sweep shows an armed rule when answers arrive between settling and sweeping. */
  function SplitArmedView(cfg: Config, ws: WalkState, a: Armed, early: set<nat>, late: set<nat>): View {
    BoundView(a.rule, Settle(cfg, ws, early).namedResponses, ViewOfOption(cfg, late, if a.rule.anonymous then a.anon else ws.anon))
  }

  /** An armed rule keeps its own untagged response; it sees the finished responses on the same condition as other rules. */
  lemma ArmedWindowView(cfg: Config, ws: WalkState, a: Armed, early: set<nat>, late: set<nat>)
    requires WalkInv(cfg, ws, early) && early <= late && a in ws.armed && ArmedReady(a, late)
    ensures SplitArmedView(cfg, ws, a, early, late) == Ref.Sight(cfg, a.rule, ArmedEnv(ws.namedFutures, a))
      <==> !AnswerInWindow(cfg, ws, a.rule, early)
  {
    SettleOk(cfg, ws, early);
    assert ArmedOk(cfg, ws.futures, ws.namedFutures, ws.index, early, a);
    var own := Settle(cfg, ws, early).(anon := a.anon, options := a.options);
    assert EnvOf(own) == ArmedEnv(ws.namedFutures, a);
    ViewAfterSettling(cfg, own, a.rule, early, ViewOfOption(cfg, late, if a.rule.anonymous then a.anon else ws.anon));
  }

  /** If no answer of the rule falls in the window, the sweep judges it as it would with every answer settled. */
  lemma ArmedWindowJudge(cfg: Config, ws: WalkState, a: Armed, early: set<nat>, late: set<nat>)
    requires WalkInv(cfg, ws, early) && early <= late && a in ws.armed && ArmedReady(a, late)
    requires !AnswerInWindow(cfg, ws, a.rule, early)
    ensures cfg.matches(a.index, SplitArmedView(cfg, ws, a, early, late)) == Ref.Matches(cfg, a.index, ArmedEnv(ws.namedFutures, a))
  {
    assert ArmedOk(cfg, ws.futures, ws.namedFutures, ws.index, early, a);
    ArmedWindowView(cfg, ws, a, early, late);
  }

  const X := Tag("x")
  const A := Tag("a")
  const Server := Transport(X, false)
  const Plain := QueryOptions(AsIs, false, false, None, 0, None, false)

  /** Evaluate on server x as `a`, then answer with `a` if there is one. */
  function Example(): Config {
    var action := Evaluate(X, A, false, RouteOptions(false, false, None, 0, None, false));
    Config([Rule(Untagged, [], false, false, action), Rule(A, [A], false, false, Respond)],
           map[X := Server], Server, false, AsIs, Plain,
           (i: nat, v: View) => i == 0 || (A in v.named && v.named[A].Some?),
           (i: nat, q: Query) => Some(7))
  }

  /** The state after the first rule: the query is on its way. */
  function ExampleState(): WalkState {
    var f := Future(0, 0, A, false, Query(Server, Plain));
    WalkState(1, Plain, None, map[A := f], map[], map[], [f], {}, [], None)
  }

  lemma ExampleRun()
    ensures Runs(Example(), Start(Example()), [Turn], Sys(ExampleState(), {}, false, Walking))
  {
    var cfg, ws := Example(), ExampleState();
    var start := Start(cfg);
    assert RuleStep(cfg, start.ws, {}) == Continue(ws);
    assert Apply(cfg, start, Turn) == Sys(ws, {}, false, Walking);
    RunsOne(cfg, start, Turn);
  }

  /** An answer that arrives in the window is lost: the rule is passed, though in no order of whole turns would it be. */
  lemma WindowLosesAnswer()
    ensures Runs(Example(), Start(Example()), [Turn], Sys(ExampleState(), {}, false, Walking))
    ensures SplitTurn(Example(), ExampleState(), {}, {0}).Continue?
    ensures RuleStep(Example(), ExampleState(), {0}) == Commit(Settle(Example(), ExampleState(), {0}), Answered(1, 7, Server))
    ensures RuleStep(Example(), ExampleState(), {}).Suspend?
  {
    ExampleRun();
    ExamplePending();
    ExampleWhole();
  }

  /** Nothing is settled: the rule waits, or is passed if the answer shows up before the scan. */
  lemma ExamplePending()
    ensures SplitTurn(Example(), ExampleState(), {}, {0}).Continue?
    ensures RuleStep(Example(), ExampleState(), {}).Suspend?
  {
    var cfg, ws := Example(), ExampleState();
    assert [A][1..] == [];
    assert PendingTags(ws.namedFutures, [A], {}) == [ws.futures[0]];
    assert PendingTags(ws.namedFutures, [A], {0}) == [];
    assert SettleFrom(cfg, ws, {}, 1) == ws && Settle(cfg, ws, {}) == ws;
  }

  lemma ExampleWhole()
    ensures RuleStep(Example(), ExampleState(), {0}) == Commit(Settle(Example(), ExampleState(), {0}), Answered(1, 7, Server))
  {
    var cfg, ws := Example(), ExampleState();
    var now := SettleOne(cfg, ws, ws.futures[0]);
    assert [A][1..] == [];
    assert PendingTags(ws.namedFutures, [A], {0}) == [];
    assert SettleFrom(cfg, now, {0}, 1) == now && Settle(cfg, ws, {0}) == now;
  }

  /** The same list with the second rule racing. */
  function RaceExample(): Config {
    Example().(rules := [Example().rules[0], Example().rules[1].(race := true)])
  }

  /** Past the last rule, with the race rule armed. */
  function RaceExampleState(): WalkState {
    var ws := ExampleState();
    ws.(index := 2, armed := [Armed(1, RaceExample().rules[1], ws.futures, None, Plain)])
  }

  /** In the resume loop an answer in the window is lost as well: the armed rule is judged without it, and disarmed. */
  lemma SweepLosesAnswer()
    ensures Runs(RaceExample(), Start(RaceExample()), [Turn, Turn, Turn], Sys(RaceExampleState(), {}, false, Resuming(Drain)))
    ensures Sweep(RaceExample(), Settle(RaceExample(), RaceExampleState(), {}), {0}) == (RaceExampleState().(armed := []), None)
    ensures Sweep(RaceExample(), Settle(RaceExample(), RaceExampleState(), {0}), {0}).1 == Some(Final(Answered(1, 7, Server)))
  {
    RaceExampleRun();
    LateSweep();
    WholeSweep();
  }

  lemma LateSweep()
    ensures Sweep(RaceExample(), Settle(RaceExample(), RaceExampleState(), {}), {0}) == (RaceExampleState().(armed := []), None)
  {
    var cfg, ws := RaceExample(), RaceExampleState();
    assert SettleFrom(cfg, ws, {}, 1) == ws && Settle(cfg, ws, {}) == ws;
    assert ArmedReady(ws.armed[0], {0});
    assert ws.armed[..0] + ws.armed[1..] == [];
    assert JudgeArmed(cfg, ws, {0}, ws.armed[0]) == None;
    assert SweepFrom(cfg, ws.(armed := []), {0}, 0) == (ws.(armed := []), None);
  }

  lemma WholeSweep()
    ensures Sweep(RaceExample(), Settle(RaceExample(), RaceExampleState(), {0}), {0}).1 == Some(Final(Answered(1, 7, Server)))
  {
    var cfg, ws := RaceExample(), RaceExampleState();
    var now := SettleOne(cfg, ws, ws.futures[0]);
    assert SettleFrom(cfg, now, {0}, 1) == now && Settle(cfg, ws, {0}) == now;
    assert ArmedReady(now.armed[0], {0});
    assert JudgeArmed(cfg, now, {0}, now.armed[0]) == Some(Final(Answered(1, 7, Server)));
  }

  lemma RaceExampleTurns()
    ensures RuleStep(RaceExample(), Start(RaceExample()).ws, {}) == Continue(ExampleState())
    ensures RuleStep(RaceExample(), ExampleState(), {}) == Continue(RaceExampleState())
    ensures RuleStep(RaceExample(), RaceExampleState(), {}) == Suspend(RaceExampleState(), Drain)
  {
    var cfg := RaceExample();
    var first := ExampleState();
    assert [A][1..] == [];
    assert PendingTags(first.namedFutures, [A], {}) == [first.futures[0]];
    assert SettleFrom(cfg, first, {}, 1) == first && Settle(cfg, first, {}) == first;
    assert EntryOf(cfg, first, {}).pending == first.futures;
    assert [] + [EntryOf(cfg, first, {})] == RaceExampleState().armed;
  }

  lemma RaceExampleRun()
    ensures Runs(RaceExample(), Start(RaceExample()), [Turn, Turn, Turn], Sys(RaceExampleState(), {}, false, Resuming(Drain)))
  {
    RaceExampleTurns();
    var cfg := RaceExample();
    var s, t := Sys(RaceExampleState(), {}, false, Walking), Sys(RaceExampleState(), {}, false, Resuming(Drain));
    assert Runs(cfg, s, [Turn], t) by { RunsOne(cfg, s, Turn); }
    assert [Turn, Turn][1..] == [Turn] && [Turn, Turn, Turn][1..] == [Turn, Turn];
    assert Runs(cfg, Sys(ExampleState(), {}, false, Walking), [Turn, Turn], t);
  }
}
