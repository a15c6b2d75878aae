/** Every turn of the walk's loop keeps the invariant. */
module WalkTurns {
  import opened Wrappers
  import opened DnsTypes
  import opened RuleWalk
  import opened WalkSystem
  import opened WalkSafety
  import opened WalkCourse
  import Ref = WalkReference

  ghost predicate ResultOk(cfg: Config, done: set<nat>, r: StepResult) {
    match r
    case Continue(ws) => WalkInv(cfg, ws, done) && OnCourse(cfg, ws, done)
    case Suspend(ws, suspension) => WalkInv(cfg, ws, done) && SuspensionOk(cfg, ws, done, suspension)
    case Commit(ws, o) => WalkInv(cfg, ws.(armed := []), done) && OutcomeOk(cfg, o)
  }

  /** Passing the last rule. */
  lemma EndStepOk(cfg: Config, ws: WalkState, done: set<nat>)
    requires WalkInv(cfg, ws, done) && OnCourse(cfg, ws, done) && ws.index == |cfg.rules|
    ensures ResultOk(cfg, done, RuleStep(cfg, ws, done))
  {
    if ws.armed == [] {
      NoHitBefore(cfg, ws, done);
      Ref.SequentialAt(cfg, ws.index);
      forall k | 0 <= k < |ws.futures|
        ensures ws.futures[k].rule != |cfg.rules|
      {
        assert LaunchedBy(cfg, ws.futures[k]);
      }
    }
  }

  /** Moving on to the next rule keeps the walk invariant when no query was started early. */
  lemma NextOk(cfg: Config, ws: WalkState, done: set<nat>, options: QueryOptions, anon: Option<Future>)
    requires WalkInv(cfg, ws, done) && ws.index < |cfg.rules| && ws.terminal.None?
    requires anon == ws.anon || anon == None
    ensures WalkInv(cfg, Next(ws.(options := options, anon := anon)), done)
  {
    AllArmedNext(cfg, ws.futures, ws.namedFutures, ws.index, done, ws.armed);
  }

  lemma EntryOk(cfg: Config, ws: WalkState, done: set<nat>)
    requires ws.index < |cfg.rules| && NamesOk(ws.futures, ws.namedFutures, ws.anon)
    requires cfg.rules[ws.index].Races() && RespondShape(cfg.rules[ws.index])
    ensures
      var a := EntryOf(cfg, ws, done);
      && ArmedOk(cfg, ws.futures, ws.namedFutures, ws.index + 1, done, a)
      && (SourceFixed(a) || ws.anon.None?)
      && (a.pending != [] ==> SourceFixed(a))
  {
    PendingOfSpec(ws.namedFutures, ws.anon, cfg.rules[ws.index], done);
  }

  lemma AllArmedNext(cfg: Config, futures: seq<Future>, named: map<Tag, Future>, index: nat, done: set<nat>, armed: seq<Armed>)
    requires AllArmedOk(cfg, futures, named, index, done, armed)
    ensures AllArmedOk(cfg, futures, named, index + 1, done, armed)
  {
    forall a | a in armed
      ensures ArmedOk(cfg, futures, named, index + 1, done, a) && a.pending != [] && SourceFixed(a)
    {
      assert ArmedOk(cfg, futures, named, index, done, a);
    }
  }

  lemma ArmedEachOk(cfg: Config, ws: WalkState, done: set<nat>)
    requires NamesOk(ws.futures, ws.namedFutures, ws.anon)
    requires AllArmedOk(cfg, ws.futures, ws.namedFutures, ws.index, done, ws.armed)
    requires ws.index < |cfg.rules| && cfg.rules[ws.index].Races() && RespondShape(cfg.rules[ws.index])
    ensures EachArmedOk(cfg, ArmedState(cfg, ws, done), done)
    ensures forall a :: a in ArmedState(cfg, ws, done).armed && a.pending != [] ==> SourceFixed(a)
  {
    EntryOk(cfg, ws, done);
    AllArmedNext(cfg, ws.futures, ws.namedFutures, ws.index, done, ws.armed);
  }

  /** All of the walk invariant except that armed rules wait for something. */
  lemma ArmedStateOk(cfg: Config, ws: WalkState, done: set<nat>, armed: seq<Armed>)
    requires WalkInv(cfg, ws, done)
    requires ws.index < |cfg.rules| && cfg.rules[ws.index].Races() && RespondShape(cfg.rules[ws.index])
    requires forall a :: a in armed ==> a in ArmedState(cfg, ws, done).armed && a.pending != []
    ensures WalkInv(cfg, ArmedState(cfg, ws, done).(armed := armed), done)
  {
    assert ws.terminal.None?;
    NextOk(cfg, ws, done, ws.options, ws.anon);
    ArmedEachOk(cfg, ws, done);
  }

  lemma {:induction false} SweepIgnoresIndex(cfg: Config, ws: WalkState, done: set<nat>, k: nat)
    ensures SweepFrom(cfg, Next(ws), done, k) == (Next(SweepFrom(cfg, ws, done, k).0), SweepFrom(cfg, ws, done, k).1)
    decreases |ws.armed| - k
  {
    if k >= |ws.armed| {
    } else if !ArmedReady(ws.armed[k], done) {
      SweepIgnoresIndex(cfg, ws, done, k + 1);
    } else {
      assert JudgeArmed(cfg, Next(ws), done, ws.armed[k]) == JudgeArmed(cfg, ws, done, ws.armed[k]);
      SweepIgnoresIndex(cfg, ws.(armed := ws.armed[..k] + ws.armed[k + 1..]), done, k);
    }
  }

  /** The query of a race rule was not launched before. */
  lemma RaceQueryIsNew(cfg: Config, futures: seq<Future>, index: nat, terminal: Option<Future>, i: nat)
    requires FuturesOk(cfg, futures, index, terminal) && i < |cfg.rules| && cfg.rules[i].action.Route?
    requires forall f :: terminal == Some(f) ==> f.rule != i
    ensures forall k :: 0 <= k < |futures| ==> futures[k].rule != i
  {
    forall k | 0 <= k < |futures|
      ensures futures[k].rule != i
    {
      assert LaunchedBy(cfg, futures[k]);
    }
  }

  /** The winner of a sweep commits a possible result. */
  lemma WinnerOk(cfg: Config, ws: WalkState, done: set<nat>, v: Verdict, index: nat, terminal: Option<Future>)
    requires OnCourse(cfg, ws, done) && EachArmedOk(cfg, ws, done)
    requires FuturesOk(cfg, ws.futures, index, terminal)
    requires forall f :: terminal == Some(f) ==> f.rule < |cfg.rules| && !cfg.rules[f.rule].Races()
    requires exists a :: SweepWinner(cfg, ws, done, a, v)
    ensures v.Final? ==> OutcomeOk(cfg, v.outcome)
    ensures v.Send? ==> PendingOk(cfg, ws.futures, v.pending)
  {
    var a :| SweepWinner(cfg, ws, done, a, v);
    EachArmedFacts(cfg, ws, done);
    WinnerIndex(cfg, ws, done, a, v, index, terminal);
    if v.Send? {
      RaceQueryIsNew(cfg, ws.futures, index, terminal, a.index);
    }
  }

  lemma EachArmedFacts(cfg: Config, ws: WalkState, done: set<nat>)
    requires EachArmedOk(cfg, ws, done)
    ensures forall b :: b in ws.armed ==>
      && b.index < ws.index && b.index < |cfg.rules| && b.rule == cfg.rules[b.index] && b.rule.Races()
      && forall f :: f in b.pending ==> Known(ws.futures, f)
  {
    forall b | b in ws.armed
      ensures
        && b.index < ws.index && b.index < |cfg.rules| && b.rule == cfg.rules[b.index] && b.rule.Races()
        && forall f :: f in b.pending ==> Known(ws.futures, f)
    {
      assert ArmedOk(cfg, ws.futures, ws.namedFutures, ws.index, done, b);
    }
  }

  lemma AllArmedAreEach(cfg: Config, ws: WalkState, done: set<nat>)
    requires AllArmedOk(cfg, ws.futures, ws.namedFutures, ws.index, done, ws.armed)
    ensures EachArmedOk(cfg, ws, done)
  {
  }

  /** A race rule. */
  lemma RaceActionOk(cfg: Config, now: WalkState, done: set<nat>)
    requires RespondBinding(cfg.rules) && WalkInv(cfg, now, done) && OnCourse(cfg, now, done) && now.settled == done
    requires now.index < |cfg.rules| && cfg.rules[now.index].Races()
    ensures ResultOk(cfg, done, RaceAction(cfg, now, done))
  {
    assert RespondShape(cfg.rules[now.index]);
    AllArmedAreEach(cfg, now, done);
    EachArmedFacts(cfg, now, done);
    ArmCourse(cfg, now, done);
    if EntryOf(cfg, now, done).pending != [] {
      ArmedWaitsOk(cfg, now, done);
    } else {
      ArmedEachOk(cfg, now, done);
      RaceSweepOk(cfg, now, done);
    }
  }

  lemma ArmedWaitsOk(cfg: Config, now: WalkState, done: set<nat>)
    requires WalkInv(cfg, now, done)
    requires now.index < |cfg.rules| && cfg.rules[now.index].Races() && RespondShape(cfg.rules[now.index])
    requires EntryOf(cfg, now, done).pending != []
    ensures WalkInv(cfg, ArmedState(cfg, now, done), done)
  {
    var armed := ArmedState(cfg, now, done);
    forall a | a in armed.armed
      ensures a.pending != []
    {
      if a != EntryOf(cfg, now, done) { assert a in now.armed; }
    }
    ArmedStateOk(cfg, now, done, armed.armed);
    assert armed == armed.(armed := armed.armed);
  }

  lemma RaceSweepOk(cfg: Config, now: WalkState, done: set<nat>)
    requires RespondBinding(cfg.rules) && WalkInv(cfg, now, done) && now.settled == done
    requires now.index < |cfg.rules| && cfg.rules[now.index].Races() && EntryOf(cfg, now, done).pending == []
    requires OnCourse(cfg, ArmedState(cfg, now, done), done) && EachArmedOk(cfg, ArmedState(cfg, now, done), done)
    ensures
      var (swept, verdict) := Sweep(cfg, now.(armed := now.armed + [EntryOf(cfg, now, done)]), done);
      match verdict
      case None => WalkInv(cfg, Next(swept), done) && OnCourse(cfg, Next(swept), done)
      case Some(Send(p)) => WalkInv(cfg, swept.(armed := []), done) && PendingOk(cfg, swept.futures, p)
      case Some(Final(o)) => WalkInv(cfg, swept.(armed := []), done) && OutcomeOk(cfg, o)
  {
    var entry := EntryOf(cfg, now, done);
    var plain := now.(armed := now.armed + [entry]);
    var armed := ArmedState(cfg, now, done);
    SweepIgnoresIndex(cfg, plain, done, 0);
    SweepFromOk(cfg, armed, done, 0);
    var (swept, verdict) := Sweep(cfg, plain, done);
    assert SweepResult(cfg, armed, done, Next(swept), verdict);
    if verdict.Some? {
      WinnerOk(cfg, armed, done, verdict.value, now.index, now.terminal);
      DisarmedOk(cfg, now, done);
      assert swept.(armed := []) == now.(armed := []);
    } else {
      RaceMissOk(cfg, now, done, swept);
    }
  }

  lemma DisarmedOk(cfg: Config, ws: WalkState, done: set<nat>)
    requires WalkInv(cfg, ws, done)
    ensures WalkInv(cfg, ws.(armed := []), done)
  {
    assert EnvOf(ws.(armed := [])) == EnvOf(ws);
  }

  lemma RaceMissOk(cfg: Config, now: WalkState, done: set<nat>, swept: WalkState)
    requires WalkInv(cfg, now, done)
    requires now.index < |cfg.rules| && cfg.rules[now.index].Races() && RespondShape(cfg.rules[now.index])
    requires OnCourse(cfg, ArmedState(cfg, now, done), done) && EachArmedOk(cfg, ArmedState(cfg, now, done), done)
    requires SweepResult(cfg, ArmedState(cfg, now, done), done, Next(swept), None)
    ensures WalkInv(cfg, Next(swept), done) && OnCourse(cfg, Next(swept), done)
  {
    var armed := ArmedState(cfg, now, done);
    forall a | a in swept.armed
      ensures a in armed.armed && a.pending != []
    {
      assert a in Next(swept).armed;
      assert !ArmedReady(a, done);
    }
    ArmedStateOk(cfg, now, done, swept.armed);
    assert Next(swept) == armed.(armed := swept.armed);
    EachArmedFacts(cfg, armed, done);
    SweptCourse(cfg, armed, done, Next(swept));
  }

  // ---------------------------------------------------------------- rules judged in order

  /** No query is started early when the rule at hand does not send one. */
  lemma NoTerminal(cfg: Config, ws: WalkState, done: set<nat>)
    requires WalkInv(cfg, ws, done)
    requires ws.index < |cfg.rules|
    requires cfg.rules[ws.index].action.Route? ==>
      || !Ref.Matches(cfg, ws.index, EnvOf(ws))
      || ResolveRoute(cfg, cfg.rules[ws.index].action.server, cfg.rules[ws.index].action.opts, ws.options).None?
    ensures ws.terminal.None?
  {
  }

  /** A rule whose responses are all in. */
  ghost predicate Judgeable(cfg: Config, ws: WalkState, done: set<nat>) {
    && OnCourse(cfg, ws, done) && ws.index < |cfg.rules| && !cfg.rules[ws.index].Races()
    && PendingOf(ws.namedFutures, ws.anon, cfg.rules[ws.index], done) == []
    && (cfg.rules[ws.index].Binds() ==> ws.settled == done)
  }

  /** A rule without effect is passed. */
  lemma PassOk(cfg: Config, ws: WalkState, done: set<nat>)
    requires WalkInv(cfg, ws, done) && Judgeable(cfg, ws, done)
    requires Ref.Matches(cfg, ws.index, EnvOf(ws)) ==>
      && Ref.Conclude(cfg, ws.index, EnvOf(ws)).None?
      && Ref.Effect(cfg, ws.index, EnvOf(ws)) == EnvOf(ws)
      && (Ref.Holds(cfg, ws.index, EnvOf(ws)) ==> ws.armed == [])
    requires ws.terminal.None?
    ensures WalkInv(cfg, Next(ws), done) && OnCourse(cfg, Next(ws), done)
  {
    NextOk(cfg, ws, done, ws.options, ws.anon);
    assert Next(ws) == Next(ws.(options := ws.options, anon := ws.anon));
    BoundAnswered(ws, cfg.rules[ws.index], done);
    MoveOn(cfg, ws, Next(ws), done);
  }

  /** A matched rule whose responses are all in. */
  ghost predicate AtMatch(cfg: Config, ws: WalkState, done: set<nat>) {
    Judgeable(cfg, ws, done) && Ref.Matches(cfg, ws.index, EnvOf(ws))
  }

  lemma SetOptionsOk(cfg: Config, ws: WalkState, done: set<nat>)
    requires WalkInv(cfg, ws, done) && AtMatch(cfg, ws, done) && cfg.rules[ws.index].action.SetOptions?
    ensures ResultOk(cfg, done, ActionStep(cfg, ws, done))
  {
    NoTerminal(cfg, ws, done);
    var options := ApplyOptions(ws.options, cfg.rules[ws.index].action.opts);
    NextOk(cfg, ws, done, options, ws.anon);
    assert Next(ws.(options := options)) == Next(ws.(options := options, anon := ws.anon));
    BoundAnswered(ws, cfg.rules[ws.index], done);
    MoveOn(cfg, ws, Next(ws.(options := options)), done);
  }

  /** The tag of an evaluate rule is new, and no armed rule refers to it. */
  lemma NewTag(cfg: Config, ws: WalkState, done: set<nat>)
    requires UniqueTags(cfg.rules) && TagsDefined(cfg.rules) && WalkInv(cfg, ws, done) && ws.index < |cfg.rules|
    requires cfg.rules[ws.index].action.Evaluate? && cfg.rules[ws.index].action.tag != Untagged
    ensures cfg.rules[ws.index].action.tag !in ws.namedFutures
    ensures forall a :: a in ws.armed ==> cfg.rules[ws.index].action.tag !in a.rule.tags
  {
    var tag := cfg.rules[ws.index].action.tag;
    assert Defines(cfg.rules[ws.index], tag);
    if tag in ws.namedFutures {
      var f := ws.namedFutures[tag];
      assert LaunchedBy(cfg, ws.futures[f.id]);
      assert Defines(cfg.rules[f.rule], tag);
      assert false;
    }
    forall a | a in ws.armed
      ensures tag !in a.rule.tags
    {
      assert ArmedOk(cfg, ws.futures, ws.namedFutures, ws.index, done, a);
    }
  }

  /** Adding a future keeps everything that was said about the others. */
  lemma AllArmedLaunch(cfg: Config, futures: seq<Future>, named: map<Tag, Future>, index: nat, done: set<nat>, armed: seq<Armed>, f: Future)
    requires AllArmedOk(cfg, futures, named, index, done, armed)
    ensures AllArmedOk(cfg, futures + [f], named, index, done, armed)
  {
    forall a | a in armed
      ensures ArmedOk(cfg, futures + [f], named, index, done, a) && a.pending != [] && SourceFixed(a)
    {
      assert ArmedOk(cfg, futures, named, index, done, a);
    }
  }

  lemma AllArmedNamed(cfg: Config, futures: seq<Future>, named: map<Tag, Future>, index: nat, done: set<nat>, armed: seq<Armed>, tag: Tag, f: Future)
    requires AllArmedOk(cfg, futures, named, index, done, armed)
    requires forall a :: a in armed ==> tag !in a.rule.tags
    ensures AllArmedOk(cfg, futures, named[tag := f], index, done, armed)
  {
    forall a | a in armed
      ensures ArmedOk(cfg, futures, named[tag := f], index, done, a) && a.pending != [] && SourceFixed(a)
    {
      assert ArmedOk(cfg, futures, named, index, done, a);
    }
  }

  lemma NamesLaunch(futures: seq<Future>, named: map<Tag, Future>, anon: Option<Future>, f: Future)
    requires NamesOk(futures, named, anon) && f.id == |futures|
    requires f.tag != Untagged ==> f.tag !in named
    ensures f.tag != Untagged ==> NamesOk(futures + [f], named[f.tag := f], anon)
    ensures f.tag == Untagged ==> NamesOk(futures + [f], named, anon)
    ensures f.tag == Untagged && !f.terminal ==> NamesOk(futures + [f], named, Some(f))
  {
  }

  lemma FuturesLaunch(cfg: Config, futures: seq<Future>, index: nat, f: Future)
    requires Numbered(futures) && FuturesOk(cfg, futures, index, None)
    requires f.id == |futures| && f.rule == index && LaunchedBy(cfg, f)
    ensures Numbered(futures + [f])
    ensures !f.terminal ==> FuturesOk(cfg, futures + [f], index + 1, None)
    ensures f.terminal ==> FuturesOk(cfg, futures + [f], index, Some(f))
  {
  }

  lemma ResponsesLaunch(cfg: Config, ws: WalkState, done: set<nat>, f: Future)
    requires ResponsesOk(cfg, ws.namedFutures, ws.settled, ws.namedResponses, ws.namedTransports)
    requires DoneOk(ws.futures, ws.settled, done) && f.id == |ws.futures| && f.tag !in ws.namedFutures
    ensures ResponsesOk(cfg, ws.namedFutures[f.tag := f], ws.settled, ws.namedResponses, ws.namedTransports)
  {
  }

  /** The future an evaluate rule launches. */
  function EvaluateFuture(cfg: Config, ws: WalkState): Future
    requires ws.index < |cfg.rules| && cfg.rules[ws.index].action.Evaluate? && cfg.rules[ws.index].action.server in cfg.transports
  {
    var action := cfg.rules[ws.index].action;
    Future(|ws.futures|, ws.index, action.tag, false,
           MakeQuery(cfg, cfg.transports[action.server], ApplyOptions(ws.options, action.opts)))
  }

  lemma LaunchNamedOk(cfg: Config, ws: WalkState, done: set<nat>)
    requires WellFormed(cfg.rules) && WalkInv(cfg, ws, done) && ws.index < |cfg.rules| && ws.terminal.None?
    requires cfg.rules[ws.index].action.Evaluate? && cfg.rules[ws.index].action.server in cfg.transports
    requires cfg.rules[ws.index].action.tag != Untagged
    ensures
      var f := EvaluateFuture(cfg, ws);
      var next := Next(ws.(futures := ws.futures + [f], namedFutures := ws.namedFutures[f.tag := f]));
      && WalkInv(cfg, next, done)
      && (AllFaithful(cfg, ws.futures, ws.namedFutures, done, ws.armed) ==>
            AllFaithful(cfg, ws.futures, next.namedFutures, done, ws.armed))
  {
    var f := EvaluateFuture(cfg, ws);
    NewTag(cfg, ws, done);
    if AllFaithful(cfg, ws.futures, ws.namedFutures, done, ws.armed) {
      FaithfulNamed(cfg, ws, done, f.tag, f);
    }
    AllArmedLaunch(cfg, ws.futures, ws.namedFutures, ws.index, done, ws.armed, f);
    AllArmedNamed(cfg, ws.futures + [f], ws.namedFutures, ws.index, done, ws.armed, f.tag, f);
    AllArmedNext(cfg, ws.futures + [f], ws.namedFutures[f.tag := f], ws.index, done, ws.armed);
    NamesLaunch(ws.futures, ws.namedFutures, ws.anon, f);
    FuturesLaunch(cfg, ws.futures, ws.index, f);
    ResponsesLaunch(cfg, ws, done, f);
  }

  lemma LaunchAnonymousOk(cfg: Config, ws: WalkState, done: set<nat>)
    requires WalkInv(cfg, ws, done) && ws.index < |cfg.rules| && ws.terminal.None?
    requires cfg.rules[ws.index].action.Evaluate? && cfg.rules[ws.index].action.server in cfg.transports
    requires cfg.rules[ws.index].action.tag == Untagged
    ensures
      var f := EvaluateFuture(cfg, ws);
      WalkInv(cfg, Next(ws.(futures := ws.futures + [f], anon := Some(f))), done)
  {
    var f := EvaluateFuture(cfg, ws);
    AllArmedLaunch(cfg, ws.futures, ws.namedFutures, ws.index, done, ws.armed, f);
    AllArmedNext(cfg, ws.futures + [f], ws.namedFutures, ws.index, done, ws.armed);
    NamesLaunch(ws.futures, ws.namedFutures, ws.anon, f);
    FuturesLaunch(cfg, ws.futures, ws.index, f);
  }

  /** A matched evaluate rule. */
  ghost predicate AtEvaluate(cfg: Config, ws: WalkState, done: set<nat>) {
    AtMatch(cfg, ws, done) && cfg.rules[ws.index].action.Evaluate?
  }

  lemma EvaluateMissingOk(cfg: Config, ws: WalkState, done: set<nat>, anon: Option<Future>)
    requires WalkInv(cfg, ws, done) && ws.terminal.None? && AtEvaluate(cfg, ws, done)
    requires cfg.rules[ws.index].action.server !in cfg.transports
    requires anon == if cfg.rules[ws.index].action.tag == Untagged then None else ws.anon
    ensures WalkInv(cfg, Next(ws.(anon := anon)), done) && OnCourse(cfg, Next(ws.(anon := anon)), done)
  {
    NextOk(cfg, ws, done, ws.options, anon);
    assert ws.(anon := anon) == ws.(options := ws.options, anon := anon);
    BoundAnswered(ws, cfg.rules[ws.index], done);
    MoveOn(cfg, ws, Next(ws.(anon := anon)), done);
  }

  /** The rule may act: it is speculative or no race rule is open. */
  predicate MayLaunch(cfg: Config, ws: WalkState)
    requires ws.index < |cfg.rules| && cfg.rules[ws.index].action.Evaluate?
  {
    cfg.rules[ws.index].action.server in cfg.transports && (cfg.rules[ws.index].action.speculative || ws.armed == [])
  }

  lemma EvaluateAnonymousOnCourse(cfg: Config, ws: WalkState, done: set<nat>)
    requires AtEvaluate(cfg, ws, done) && NamesOk(ws.futures, ws.namedFutures, ws.anon) && DoneOk(ws.futures, ws.settled, done)
    requires MayLaunch(cfg, ws) && cfg.rules[ws.index].action.tag == Untagged
    ensures
      var f := EvaluateFuture(cfg, ws);
      OnCourse(cfg, Next(ws.(futures := ws.futures + [f], anon := Some(f))), done)
  {
    var f := EvaluateFuture(cfg, ws);
    BoundAnswered(ws, cfg.rules[ws.index], done);
    AnsweredLaunch(ws.futures, ws.settled, done, f);
    FaithfulLaunch(cfg, ws.futures, ws.namedFutures, done, ws.armed, f);
    MoveOn(cfg, ws, Next(ws.(futures := ws.futures + [f], anon := Some(f))), done);
  }

  lemma EvaluateNamedOnCourse(cfg: Config, ws: WalkState, done: set<nat>)
    requires AtEvaluate(cfg, ws, done) && NamesOk(ws.futures, ws.namedFutures, ws.anon) && DoneOk(ws.futures, ws.settled, done)
    requires MayLaunch(cfg, ws) && cfg.rules[ws.index].action.tag != Untagged
    requires
      var f := EvaluateFuture(cfg, ws);
      AllFaithful(cfg, ws.futures, ws.namedFutures[f.tag := f], done, ws.armed)
    ensures
      var f := EvaluateFuture(cfg, ws);
      OnCourse(cfg, Next(ws.(futures := ws.futures + [f], namedFutures := ws.namedFutures[f.tag := f])), done)
  {
    var f := EvaluateFuture(cfg, ws);
    assert NamedEvals(ws.namedFutures[f.tag := f]) == NamedEvals(ws.namedFutures)[f.tag := EvalOf(f)];
    BoundAnswered(ws, cfg.rules[ws.index], done);
    AnsweredLaunch(ws.futures, ws.settled, done, f);
    FaithfulLaunch(cfg, ws.futures, ws.namedFutures[f.tag := f], done, ws.armed, f);
    MoveOn(cfg, ws, Next(ws.(futures := ws.futures + [f], namedFutures := ws.namedFutures[f.tag := f])), done);
  }

  lemma EvaluateOk(cfg: Config, ws: WalkState, done: set<nat>)
    requires WellFormed(cfg.rules) && WalkInv(cfg, ws, done) && AtEvaluate(cfg, ws, done)
    ensures ResultOk(cfg, done, ActionStep(cfg, ws, done))
  {
    NoTerminal(cfg, ws, done);
    var action := cfg.rules[ws.index].action;
    if action.server !in cfg.transports {
      EvaluateMissingOk(cfg, ws, done, if action.tag == Untagged then None else ws.anon);
      assert action.tag != Untagged ==> ws == ws.(anon := ws.anon);
    } else if !action.speculative && |ws.armed| > 0 {
    } else if action.tag == Untagged {
      LaunchAnonymousOk(cfg, ws, done);
      EvaluateAnonymousOnCourse(cfg, ws, done);
    } else {
      LaunchNamedOk(cfg, ws, done);
      EvaluateNamedOnCourse(cfg, ws, done);
    }
  }

  /** A tagged respond rule answers with the response of the future that carries its tag. */
  lemma RespondNamedOk(cfg: Config, ws: WalkState, tag: Tag, i: nat)
    requires ResponsesOk(cfg, ws.namedFutures, ws.settled, ws.namedResponses, ws.namedTransports)
    requires tag in ws.namedFutures ==> ws.namedFutures[tag].id in ws.settled
    ensures RespondOutcome(i, NamedResponse(ws, tag), NamedTransport(ws, tag)) == Ref.RespondWith(cfg, i, Ref.Named(EnvOf(ws), tag))
  {
  }

  lemma RespondOk(cfg: Config, ws: WalkState, done: set<nat>)
    requires WalkInv(cfg, ws, done) && AtMatch(cfg, ws, done)
    requires RespondShape(cfg.rules[ws.index]) && cfg.rules[ws.index].action.Respond?
    ensures ResultOk(cfg, done, ActionStep(cfg, ws, done))
  {
    var rule := cfg.rules[ws.index];
    if |ws.armed| == 0 {
      CommitPossible(cfg, ws, done);
      assert ws.armed == [] && ws == ws.(armed := []);
      PendingOfSpec(ws.namedFutures, ws.anon, rule, done);
      if rule.respondTag != Untagged {
        assert rule.respondTag in rule.tags;
        RespondNamedOk(cfg, ws, rule.respondTag, ws.index);
      }
    }
  }

  lemma FixedOk(cfg: Config, ws: WalkState, done: set<nat>)
    requires WalkInv(cfg, ws, done) && AtMatch(cfg, ws, done)
    requires cfg.rules[ws.index].action.Reject? || cfg.rules[ws.index].action.Predefined?
    ensures ResultOk(cfg, done, ActionStep(cfg, ws, done))
  {
    if |ws.armed| == 0 {
      assert ws == ws.(armed := []);
      if Ref.Conclude(cfg, ws.index, EnvOf(ws)).Some? {
        CommitPossible(cfg, ws, done);
      } else {
        NoTerminal(cfg, ws, done);
        PassOk(cfg, ws, done);
      }
    }
  }

  /** Starting a route's query early. */
  lemma SpeculateOk(cfg: Config, ws: WalkState, done: set<nat>, f: Future)
    requires WalkInv(cfg, ws, done) && AtMatch(cfg, ws, done) && ws.terminal.None?
    requires cfg.rules[ws.index].action.Route?
    requires f == Future(|ws.futures|, ws.index, Untagged, true, f.query)
    requires ResolveRoute(cfg, cfg.rules[ws.index].action.server, cfg.rules[ws.index].action.opts, ws.options) == Some(f.query)
    ensures WalkInv(cfg, ws.(futures := ws.futures + [f], terminal := Some(f)), done)
    ensures OnCourse(cfg, ws.(futures := ws.futures + [f], terminal := Some(f)), done)
  {
    AllArmedLaunch(cfg, ws.futures, ws.namedFutures, ws.index, done, ws.armed, f);
    NamesLaunch(ws.futures, ws.namedFutures, ws.anon, f);
    FuturesLaunch(cfg, ws.futures, ws.index, f);
    AnsweredLaunch(ws.futures, ws.settled, done, f);
    FaithfulLaunch(cfg, ws.futures, ws.namedFutures, done, ws.armed, f);
    assert EnvOf(ws.(futures := ws.futures + [f], terminal := Some(f))) == EnvOf(ws);
  }

  lemma RouteOk(cfg: Config, ws: WalkState, done: set<nat>)
    requires WalkInv(cfg, ws, done) && AtMatch(cfg, ws, done) && cfg.rules[ws.index].action.Route?
    ensures ResultOk(cfg, done, ActionStep(cfg, ws, done))
  {
    var action := cfg.rules[ws.index].action;
    var query := ResolveRoute(cfg, action.server, action.opts, ws.options);
    if query.None? {
      NoTerminal(cfg, ws, done);
      PassOk(cfg, ws, done);
    } else if |ws.armed| > 0 {
      if action.speculative && ws.terminal.None? {
        SpeculateOk(cfg, ws, done, Future(|ws.futures|, ws.index, Untagged, true, query.value));
      }
    } else {
      CommitPossible(cfg, ws, done);
      if ws.terminal.None? {
        RaceQueryIsNew(cfg, ws.futures, ws.index, None, ws.index);
      }
    }
  }

  lemma ActionStepOk(cfg: Config, ws: WalkState, done: set<nat>)
    requires WellFormed(cfg.rules) && WalkInv(cfg, ws, done) && AtMatch(cfg, ws, done)
    ensures ResultOk(cfg, done, ActionStep(cfg, ws, done))
  {
    match cfg.rules[ws.index].action
    case SetOptions(_) => SetOptionsOk(cfg, ws, done);
    case Evaluate(_, _, _, _) => EvaluateOk(cfg, ws, done);
    case Respond =>
      assert RespondShape(cfg.rules[ws.index]);
      RespondOk(cfg, ws, done);
    case Route(_, _, _) => RouteOk(cfg, ws, done);
    case Reject(_) => FixedOk(cfg, ws, done);
    case Predefined => FixedOk(cfg, ws, done);
  }

  lemma OrderedMatches(cfg: Config, ws: WalkState, done: set<nat>)
    requires ws.index < |cfg.rules| && ResponsesOk(cfg, ws.namedFutures, ws.settled, ws.namedResponses, ws.namedTransports)
    requires cfg.rules[ws.index].Binds() ==>
      ws.settled == done && PendingOf(ws.namedFutures, ws.anon, cfg.rules[ws.index], done) == []
    ensures
      cfg.matches(ws.index, BoundView(cfg.rules[ws.index], ws.namedResponses, ViewOfOption(cfg, done, ws.anon)))
      == Ref.Matches(cfg, ws.index, EnvOf(ws))
  {
    var rule := cfg.rules[ws.index];
    PendingOfSpec(ws.namedFutures, ws.anon, rule, done);
    if rule.Binds() {
      ViewIsSight(cfg, rule, ws, done, ws.options, ws.anon, ViewOfOption(cfg, done, ws.anon));
    } else {
      assert BoundView(rule, ws.namedResponses, ViewOfOption(cfg, done, ws.anon)) == Ref.Sight(cfg, rule, EnvOf(ws));
    }
  }

  lemma PendingIsKnown(ws: WalkState, rule: Rule, done: set<nat>)
    requires NamesOk(ws.futures, ws.namedFutures, ws.anon)
    ensures
      var pending := PendingOf(ws.namedFutures, ws.anon, rule, done);
      pending != [] ==> Known(ws.futures, pending[0]) && pending[0].id !in done
  {
    PendingOfSpec(ws.namedFutures, ws.anon, rule, done);
  }

  /** A rule that is judged in order. */
  lemma OrderedActionOk(cfg: Config, ws: WalkState, done: set<nat>)
    requires WellFormed(cfg.rules) && WalkInv(cfg, ws, done) && OnCourse(cfg, ws, done)
    requires ws.index < |cfg.rules| && !cfg.rules[ws.index].Races() && (cfg.rules[ws.index].Binds() ==> ws.settled == done)
    ensures ResultOk(cfg, done, OrderedAction(cfg, ws, done))
  {
    var rule := cfg.rules[ws.index];
    var pending := PendingOf(ws.namedFutures, ws.anon, rule, done);
    if rule.Binds() && pending != [] {
      PendingIsKnown(ws, rule, done);
    } else {
      OrderedMatches(cfg, ws, done);
      if Ref.Matches(cfg, ws.index, EnvOf(ws)) {
        ActionStepOk(cfg, ws, done);
      } else {
        NoTerminal(cfg, ws, done);
        PassOk(cfg, ws, done);
      }
    }
  }

  /** One turn of the walk's loop. */
  lemma RuleStepOk(cfg: Config, ws: WalkState, done: set<nat>)
    requires WellFormed(cfg.rules) && WalkInv(cfg, ws, done) && OnCourse(cfg, ws, done)
    ensures ResultOk(cfg, done, RuleStep(cfg, ws, done))
  {
    if ws.index == |cfg.rules| {
      EndStepOk(cfg, ws, done);
    } else {
      var rule := cfg.rules[ws.index];
      SettleOk(cfg, ws, done);
      var now := if rule.Binds() then Settle(cfg, ws, done) else ws;
      assert EnvOf(now) == EnvOf(ws);
      if rule.Races() {
        RaceActionOk(cfg, now, done);
      } else {
        OrderedActionOk(cfg, now, done);
      }
    }
  }
}
