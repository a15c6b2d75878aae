/** The walk keeps pace with the sequential interpreter. */
module WalkCourse {
  import opened Wrappers
  import opened DnsTypes
  import opened RuleWalk
  import opened WalkSafety
  import Ref = WalkReference

  // ---------------------------------------------------------------- answered queries

  lemma AnsweredKnown(futures: seq<Future>, done: set<nat>, f: Future)
    requires Known(futures, f) && f.id in done
    ensures f.rule in AnsweredRules(futures, done)
  {
    assert futures[f.id].rule == f.rule;
  }

  lemma AnsweredLaunch(futures: seq<Future>, settled: set<nat>, done: set<nat>, f: Future)
    requires DoneOk(futures, settled, done)
    ensures AnsweredRules(futures + [f], done) == AnsweredRules(futures, done)
  {
    forall r | r in AnsweredRules(futures, done)
      ensures r in AnsweredRules(futures + [f], done)
    {
      var k :| 0 <= k < |futures| && k in done && futures[k].rule == r;
      assert (futures + [f])[k].rule == r;
    }
    forall r | r in AnsweredRules(futures + [f], done)
      ensures r in AnsweredRules(futures, done)
    {
      var k :| 0 <= k < |futures + [f]| && k in done && (futures + [f])[k].rule == r;
      assert futures[k].rule == r;
    }
  }

  lemma AnsweredGrows(futures: seq<Future>, done: set<nat>, id: nat)
    ensures AnsweredRules(futures, done) <= AnsweredRules(futures, done + {id})
  {
    forall r | r in AnsweredRules(futures, done)
      ensures r in AnsweredRules(futures, done + {id})
    {
      var k :| 0 <= k < |futures| && k in done && futures[k].rule == r;
      assert futures[k].rule == r;
    }
  }

  /** When nothing a rule is bound to is pending, every query it is bound to is answered. */
  lemma BoundAnswered(ws: WalkState, rule: Rule, done: set<nat>)
    requires NamesOk(ws.futures, ws.namedFutures, ws.anon) && PendingOf(ws.namedFutures, ws.anon, rule, done) == []
    ensures Ref.Bound(rule, EnvOf(ws)) <= AnsweredRules(ws.futures, done)
  {
    PendingOfSpec(ws.namedFutures, ws.anon, rule, done);
    forall r | r in Ref.Bound(rule, EnvOf(ws))
      ensures r in AnsweredRules(ws.futures, done)
    {
      if rule.anonymous && ws.anon.Some? && ws.anon.value.rule == r {
        AnsweredKnown(ws.futures, done, ws.anon.value);
      } else {
        var t :| t in rule.tags && t in ws.namedFutures && ws.namedFutures[t].rule == r;
        AnsweredKnown(ws.futures, done, ws.namedFutures[t]);
      }
    }
  }

  // ---------------------------------------------------------------- moving on

  lemma EnvStep(cfg: Config, index: nat, env: Ref.Env, answered: set<nat>)
    requires index < |cfg.rules| && !cfg.rules[index].Races() && EnvOnCourse(cfg, index, env, answered)
    requires Ref.Bound(cfg.rules[index], env) <= answered
    requires Ref.Matches(cfg, index, env) ==> Ref.Conclude(cfg, index, env).None?
    requires Ref.Matches(cfg, index, env) && Ref.Holds(cfg, index, env) ==> Ref.PointAt(cfg, index).joined <= answered
    ensures EnvOnCourse(cfg, index + 1, if Ref.Matches(cfg, index, env) then Ref.Effect(cfg, index, env) else env, answered)
  {
    assert Ref.PointAt(cfg, index + 1) == Ref.Pass(cfg, index, Ref.PointAt(cfg, index));
  }

  lemma ArmedStep(cfg: Config, index: nat, answered: set<nat>, armed: seq<Armed>)
    requires index < |cfg.rules| && !cfg.rules[index].Races() && ArmedOnCourse(cfg, index, answered, armed)
    ensures ArmedOnCourse(cfg, index + 1, answered, armed)
  {
    assert Ref.PointAt(cfg, index + 1) == Ref.Pass(cfg, index, Ref.PointAt(cfg, index));
  }

  lemma JoinedAnswered(cfg: Config, index: nat, answered: set<nat>)
    requires ArmedOnCourse(cfg, index, answered, [])
    ensures Ref.PointAt(cfg, index).joined <= answered
  {
  }

  /** The walk passes a rule that is judged in order. */
  lemma MoveOn(cfg: Config, ws: WalkState, next: WalkState, done: set<nat>)
    requires OnCourse(cfg, ws, done) && ws.index < |cfg.rules| && !cfg.rules[ws.index].Races()
    requires Ref.Bound(cfg.rules[ws.index], EnvOf(ws)) <= AnsweredRules(ws.futures, done)
    requires Ref.Matches(cfg, ws.index, EnvOf(ws)) ==> Ref.Conclude(cfg, ws.index, EnvOf(ws)).None?
    requires Ref.Matches(cfg, ws.index, EnvOf(ws)) && Ref.Holds(cfg, ws.index, EnvOf(ws)) ==> ws.armed == []
    requires next.index == ws.index + 1 && next.armed == ws.armed
    requires EnvOf(next) == if Ref.Matches(cfg, ws.index, EnvOf(ws)) then Ref.Effect(cfg, ws.index, EnvOf(ws)) else EnvOf(ws)
    requires AnsweredRules(next.futures, done) == AnsweredRules(ws.futures, done)
    requires AllFaithful(cfg, next.futures, next.namedFutures, done, ws.armed)
    ensures OnCourse(cfg, next, done)
  {
    var answered := AnsweredRules(ws.futures, done);
    if ws.armed == [] {
      JoinedAnswered(cfg, ws.index, answered);
    }
    EnvStep(cfg, ws.index, EnvOf(ws), answered);
    ArmedStep(cfg, ws.index, answered, ws.armed);
  }

  // ---------------------------------------------------------------- armed rules stay faithful

  /** An armed rule does not see a response with a tag it does not refer to. */
  lemma JudgeIgnoresTag(cfg: Config, named: map<Tag, Future>, tag: Tag, f: Future, a: Armed)
    requires a.index < |cfg.rules| && a.rule == cfg.rules[a.index] && RespondShape(a.rule) && tag !in a.rule.tags && tag != Untagged
    ensures JudgeOf(cfg, named[tag := f], a) == JudgeOf(cfg, named, a)
  {
    var before := ArmedEnv(named, a);
    var after := ArmedEnv(named[tag := f], a);
    forall t | t in a.rule.tags
      ensures Ref.Named(before, t) == Ref.Named(after, t)
    {
    }
    assert Ref.Sight(cfg, a.rule, before) == Ref.Sight(cfg, a.rule, after);
    assert a.rule.action.Respond? && a.rule.respondTag != Untagged ==> a.rule.respondTag in a.rule.tags;
  }

  lemma FaithfulNamed(cfg: Config, ws: WalkState, done: set<nat>, tag: Tag, f: Future)
    requires RespondBinding(cfg.rules) && AllArmedOk(cfg, ws.futures, ws.namedFutures, ws.index, done, ws.armed)
    requires tag != Untagged && forall a :: a in ws.armed ==> tag !in a.rule.tags
    requires AllFaithful(cfg, ws.futures, ws.namedFutures, done, ws.armed)
    ensures AllFaithful(cfg, ws.futures, ws.namedFutures[tag := f], done, ws.armed)
  {
    forall a | a in ws.armed
      ensures Faithful(cfg, ws.futures, ws.namedFutures[tag := f], done, a)
    {
      assert ArmedOk(cfg, ws.futures, ws.namedFutures, ws.index, done, a);
      assert RespondShape(cfg.rules[a.index]);
      JudgeIgnoresTag(cfg, ws.namedFutures, tag, f, a);
      assert Faithful(cfg, ws.futures, ws.namedFutures, done, a);
    }
  }

  lemma FaithfulLaunch(cfg: Config, futures: seq<Future>, named: map<Tag, Future>, done: set<nat>, armed: seq<Armed>, f: Future)
    requires AllFaithful(cfg, futures, named, done, armed)
    requires AnsweredRules(futures + [f], done) == AnsweredRules(futures, done)
    ensures AllFaithful(cfg, futures + [f], named, done, armed)
  {
    forall a | a in armed
      ensures Faithful(cfg, futures + [f], named, done, a)
    {
      assert Faithful(cfg, futures, named, done, a);
    }
  }

  lemma FaithfulComplete(cfg: Config, futures: seq<Future>, named: map<Tag, Future>, done: set<nat>, armed: seq<Armed>, id: nat)
    requires AllFaithful(cfg, futures, named, done, armed)
    ensures AllFaithful(cfg, futures, named, done + {id}, armed)
  {
    AnsweredGrows(futures, done, id);
    forall a | a in armed
      ensures Faithful(cfg, futures, named, done + {id}, a)
    {
      assert Faithful(cfg, futures, named, done, a);
    }
  }

  lemma CourseComplete(cfg: Config, ws: WalkState, done: set<nat>, id: nat)
    requires OnCourse(cfg, ws, done)
    ensures OnCourse(cfg, ws, done + {id})
  {
    AnsweredGrows(ws.futures, done, id);
    FaithfulComplete(cfg, ws.futures, ws.namedFutures, done, ws.armed, id);
  }

  // ---------------------------------------------------------------- arming

  /** A rule that binds no untagged response does not depend on it. */
  lemma JudgeIgnoresAnon(cfg: Config, i: nat, env: Ref.Env, anon: Option<Ref.Eval>)
    requires i < |cfg.rules| && RespondShape(cfg.rules[i]) && cfg.rules[i].Races() && !cfg.rules[i].anonymous
    ensures Ref.Judge(cfg, i, env) == Ref.Judge(cfg, i, env.(anon := anon))
  {
    assert Ref.Sight(cfg, cfg.rules[i], env) == Ref.Sight(cfg, cfg.rules[i], env.(anon := anon));
  }

  /** The state in which a race rule has just been armed. */
  function ArmedState(cfg: Config, ws: WalkState, done: set<nat>): WalkState
    requires ws.index < |cfg.rules|
  {
    Next(ws.(armed := ws.armed + [EntryOf(cfg, ws, done)]))
  }

  lemma EntryFaithful(cfg: Config, ws: WalkState, done: set<nat>)
    requires EnvOnCourse(cfg, ws.index, EnvOf(ws), AnsweredRules(ws.futures, done)) && NamesOk(ws.futures, ws.namedFutures, ws.anon)
    requires ws.index < |cfg.rules| && cfg.rules[ws.index].Races() && RespondShape(cfg.rules[ws.index])
    ensures Faithful(cfg, ws.futures, ws.namedFutures, done, EntryOf(cfg, ws, done))
  {
    var a := EntryOf(cfg, ws, done);
    if !a.rule.anonymous {
      JudgeIgnoresAnon(cfg, ws.index, EnvOf(ws), None);
    }
    EntryBound(ws, a.rule, done);
  }

  lemma EntryBound(ws: WalkState, rule: Rule, done: set<nat>)
    requires NamesOk(ws.futures, ws.namedFutures, ws.anon)
    ensures
      var pending := PendingOf(ws.namedFutures, ws.anon, rule, done);
      var bound := Ref.Bound(rule, EnvOf(ws));
      && (forall f :: f in pending ==> f.rule in bound)
      && (forall r :: r in bound ==> r in AnsweredRules(ws.futures, done) || exists f :: f in pending && f.rule == r)
  {
    var pending := PendingOf(ws.namedFutures, ws.anon, rule, done);
    PendingOfSpec(ws.namedFutures, ws.anon, rule, done);
    forall f | f in pending
      ensures f.rule in Ref.Bound(rule, EnvOf(ws))
    {
      if !(rule.anonymous && ws.anon == Some(f)) {
        var t :| t in rule.tags && t in ws.namedFutures && ws.namedFutures[t] == f;
        assert EnvOf(ws).named[t].rule == f.rule;
      }
    }
    forall r | r in Ref.Bound(rule, EnvOf(ws))
      ensures r in AnsweredRules(ws.futures, done) || exists f :: f in pending && f.rule == r
    {
      var f: Future;
      if rule.anonymous && ws.anon.Some? && ws.anon.value.rule == r {
        f := ws.anon.value;
      } else {
        var t :| t in rule.tags && t in ws.namedFutures && ws.namedFutures[t].rule == r;
        f := ws.namedFutures[t];
      }
      if f.id in done {
        AnsweredKnown(ws.futures, done, f);
      }
    }
  }

  /** Arming a race rule keeps the walk on course. */
  lemma ArmCourse(cfg: Config, ws: WalkState, done: set<nat>)
    requires OnCourse(cfg, ws, done) && NamesOk(ws.futures, ws.namedFutures, ws.anon)
    requires ws.index < |cfg.rules| && cfg.rules[ws.index].Races() && RespondShape(cfg.rules[ws.index])
    requires forall a :: a in ws.armed ==> a.index < ws.index
    ensures OnCourse(cfg, ArmedState(cfg, ws, done), done)
  {
    var a := EntryOf(cfg, ws, done);
    EntryFaithful(cfg, ws, done);
    FaithfulPlus(cfg, ws.futures, ws.namedFutures, done, ws.armed, a);
    EnvPastRace(cfg, ws.index, EnvOf(ws), AnsweredRules(ws.futures, done));
    assert EnvOf(ArmedState(cfg, ws, done)) == EnvOf(ws);
    ArmedPlus(cfg, ws.index, AnsweredRules(ws.futures, done), ws.armed, a);
  }

  lemma FaithfulPlus(cfg: Config, futures: seq<Future>, named: map<Tag, Future>, done: set<nat>, armed: seq<Armed>, a: Armed)
    requires AllFaithful(cfg, futures, named, done, armed) && Faithful(cfg, futures, named, done, a)
    ensures AllFaithful(cfg, futures, named, done, armed + [a])
  {
  }

  /** A race rule leaves the environment of the walk alone. */
  lemma EnvPastRace(cfg: Config, index: nat, env: Ref.Env, answered: set<nat>)
    requires EnvOnCourse(cfg, index, env, answered) && index < |cfg.rules| && cfg.rules[index].Races()
    ensures EnvOnCourse(cfg, index + 1, env, answered) && !Ref.PointAt(cfg, index).ended
  {
    assert Ref.PointAt(cfg, index + 1) == Ref.Pass(cfg, index, Ref.PointAt(cfg, index));
  }

  lemma ArmedPlus(cfg: Config, index: nat, answered: set<nat>, armed: seq<Armed>, a: Armed)
    requires ArmedOnCourse(cfg, index, answered, armed) && index < |cfg.rules| && a.index == index
    requires cfg.rules[index].Races() && !Ref.PointAt(cfg, index).ended
    requires forall b :: b in armed ==> b.index < index
    ensures ArmedOnCourse(cfg, index + 1, answered, armed + [a])
  {
    assert Ref.PointAt(cfg, index + 1) == Ref.Pass(cfg, index, Ref.PointAt(cfg, index));
    var more := armed + [a];
    assert a in more && forall b :: b in armed ==> b in more;
    forall k | 0 <= k < index + 1 && Ref.Hit(cfg, k)
      ensures IsArmed(more, k)
    {
      if k < index {
        var b :| b in armed && b.index == k;
        assert b in more;
      }
    }
    forall r | r in Ref.PointAt(cfg, index + 1).joined && r !in answered
      ensures exists b :: b in more && b.index < |cfg.rules| && r in Ref.BoundAt(cfg, b.index)
    {
      if r in Ref.PointAt(cfg, index).joined {
        var b :| b in armed && b.index < |cfg.rules| && r in Ref.BoundAt(cfg, b.index);
        assert b in more;
      }
    }
  }

  // ---------------------------------------------------------------- sweeping and winning

  /** A ready armed rule has all its answers. */
  lemma ReadyAnswered(cfg: Config, futures: seq<Future>, named: map<Tag, Future>, done: set<nat>, a: Armed)
    requires Faithful(cfg, futures, named, done, a) && ArmedReady(a, done)
    requires forall f :: f in a.pending ==> Known(futures, f)
    ensures Ref.BoundAt(cfg, a.index) <= AnsweredRules(futures, done)
  {
    forall r | r in Ref.BoundAt(cfg, a.index)
      ensures r in AnsweredRules(futures, done)
    {
      if exists f :: f in a.pending && f.rule == r {
        var f :| f in a.pending && f.rule == r;
        AnsweredKnown(futures, done, f);
      }
    }
  }

  /** A rule sends one query, so its query is answered only when that future is done. */
  lemma AnsweredOnce(cfg: Config, futures: seq<Future>, done: set<nat>, f: Future, index: nat, terminal: Option<Future>)
    requires FuturesOk(cfg, futures, index, terminal) && Known(futures, f) && f.rule in AnsweredRules(futures, done)
    ensures f.id in done
  {
    var k :| 0 <= k < |futures| && k in done && futures[k].rule == f.rule;
  }

  /** An armed rule that is not ready lacks an answer. */
  lemma UnreadyUnanswered(cfg: Config, futures: seq<Future>, named: map<Tag, Future>, done: set<nat>, a: Armed, index: nat, terminal: Option<Future>)
    requires Faithful(cfg, futures, named, done, a) && !ArmedReady(a, done)
    requires forall f :: f in a.pending ==> Known(futures, f)
    requires FuturesOk(cfg, futures, index, terminal)
    ensures !(Ref.BoundAt(cfg, a.index) <= AnsweredRules(futures, done))
  {
    var f :| f in a.pending && f.id !in done;
    if f.rule in AnsweredRules(futures, done) {
      AnsweredOnce(cfg, futures, done, f, index, terminal);
      assert false;
    }
    assert f.rule in Ref.BoundAt(cfg, a.index);
  }

  /** A sweep without a winner keeps the walk on course. */
  lemma SweptCourse(cfg: Config, ws: WalkState, done: set<nat>, swept: WalkState)
    requires OnCourse(cfg, ws, done) && SweepResult(cfg, ws, done, swept, None)
    requires forall a, f :: a in ws.armed && f in a.pending ==> Known(ws.futures, f)
    ensures OnCourse(cfg, swept, done)
  {
    var answered := AnsweredRules(ws.futures, done);
    assert EnvOf(swept) == EnvOf(ws);
    forall k | 0 <= k < ws.index && Ref.Hit(cfg, k)
      ensures IsArmed(swept.armed, k)
    {
      var a :| a in ws.armed && a.index == k;
      assert Faithful(cfg, ws.futures, ws.namedFutures, done, a);
      assert a in swept.armed;
    }
    forall r | r in Ref.PointAt(cfg, ws.index).joined && r !in answered
      ensures exists a :: a in swept.armed && a.index < |cfg.rules| && r in Ref.BoundAt(cfg, a.index)
    {
      var a :| a in ws.armed && a.index < |cfg.rules| && r in Ref.BoundAt(cfg, a.index);
      if a !in swept.armed {
        assert Faithful(cfg, ws.futures, ws.namedFutures, done, a);
        ReadyAnswered(cfg, ws.futures, ws.namedFutures, done, a);
      }
    }
  }

  /** The winner of a sweep is a rule the reference lets win, with its answers in. */
  lemma WinnerIndex(cfg: Config, ws: WalkState, done: set<nat>, a: Armed, v: Verdict, index: nat, terminal: Option<Future>)
    requires SweepWinner(cfg, ws, done, a, v) && OnCourse(cfg, ws, done) && FuturesOk(cfg, ws.futures, index, terminal)
    requires forall b :: b in ws.armed ==>
      b.index < ws.index && b.index < |cfg.rules| && cfg.rules[b.index].Races() && forall f :: f in b.pending ==> Known(ws.futures, f)
    ensures Ref.WinsWith(cfg, a.index, OutcomeOfVerdict(cfg, v))
    ensures Ref.BoundAt(cfg, a.index) <= AnsweredRules(ws.futures, done)
  {
    assert Faithful(cfg, ws.futures, ws.namedFutures, done, a);
    ReadyAnswered(cfg, ws.futures, ws.namedFutures, done, a);
    assert Ref.Hit(cfg, a.index);
    forall k | 0 <= k < a.index && Ref.Hit(cfg, k)
      ensures !(Ref.BoundAt(cfg, k) <= Ref.PointAt(cfg, a.index).waited + Ref.BoundAt(cfg, a.index))
    {
      assert IsArmed(ws.armed, k);
      var b :| b in ws.armed && b.index == k;
      assert Faithful(cfg, ws.futures, ws.namedFutures, done, b);
      assert !ArmedReady(b, done);
      UnreadyUnanswered(cfg, ws.futures, ws.namedFutures, done, b, index, terminal);
    }
  }

  /** With no armed rule left, no race rule hits before the walk's position. */
  lemma NoHitBefore(cfg: Config, ws: WalkState, done: set<nat>)
    requires OnCourse(cfg, ws, done) && ws.armed == []
    ensures forall k :: 0 <= k < ws.index ==> !Ref.Hit(cfg, k)
  {
    forall k | 0 <= k < ws.index
      ensures !Ref.Hit(cfg, k)
    {
      assert !IsArmed(ws.armed, k);
    }
  }

  /** A rule that commits with no armed rule left commits the sequential result. */
  lemma CommitPossible(cfg: Config, ws: WalkState, done: set<nat>)
    requires OnCourse(cfg, ws, done) && ws.armed == [] && ws.index < |cfg.rules| && !cfg.rules[ws.index].Races()
    requires Ref.Matches(cfg, ws.index, EnvOf(ws)) && Ref.Conclude(cfg, ws.index, EnvOf(ws)).Some?
    ensures Ref.Possible(cfg, Ref.Conclude(cfg, ws.index, EnvOf(ws)).value)
  {
    NoHitBefore(cfg, ws, done);
    assert Ref.PointAt(cfg, ws.index + 1) == Ref.Pass(cfg, ws.index, Ref.PointAt(cfg, ws.index));
    forall k | ws.index < k < |cfg.rules|
      ensures !Ref.Hit(cfg, k)
    {
      Ref.EndedStays(cfg, ws.index + 1, k);
    }
    Ref.SequentialAt(cfg, ws.index);
  }
}
