/**
 The exchange as the router runs it: a walk object whose fields change step by step, a resume loop, and servers that
 may answer between any two steps.
 */
module WalkExchange {
  import opened Wrappers
  import opened DnsTypes
  import opened RuleWalk
  import opened WalkSystem
  import opened WalkSafety
  import opened WalkRuns
  import opened WalkProgress
  import Ref = WalkReference
  import Meaning = WalkMeaning

  /** What a turn of the walk's loop tells the loop. */
  datatype Signal = Onward | Halt(suspension: Suspension) | Result(outcome: Outcome)

  function SignalOf(r: StepResult): Signal {
    match r
    case Continue(_) => Onward
    case Suspend(_, suspension) => Halt(suspension)
    case Commit(_, o) => Result(o)
  }

  function PhaseAfter(signal: Signal): Phase {
    match signal
    case Onward => Walking
    case Halt(suspension) => Resuming(suspension)
    case Result(o) => Finished(o)
  }

  lemma Extend(cfg: Config, trace: seq<Step>, s: Sys, step: Step)
    requires Runs(cfg, Start(cfg), trace, s) && Enabled(s, step)
    ensures Runs(cfg, Start(cfg), trace + [step], Apply(cfg, s, step))
  {
    RunsOne(cfg, s, step);
    RunsAppend(cfg, Start(cfg), trace, s, [step], Apply(cfg, s, step));
  }

  lemma PendingTagsMore(named: map<Tag, Future>, tags: seq<Tag>, done: set<nat>, k: nat)
    requires k < |tags|
    ensures PendingTags(named, tags[..k + 1], done) == PendingTags(named, tags[..k], done) + Unresolved(NamedFuture(named, tags[k]), done)
  {
    assert tags[..k + 1] == tags[..k] + [tags[k]];
    PendingTagsAppend(named, tags[..k], tags[k], done);
  }

  lemma {:induction false} PendingTagsAppend(named: map<Tag, Future>, tags: seq<Tag>, tag: Tag, done: set<nat>)
    ensures PendingTags(named, tags + [tag], done) == PendingTags(named, tags, done) + Unresolved(NamedFuture(named, tag), done)
  {
    if tags == [] {
      assert [tag][1..] == [] && tags + [tag] == [tag];
    } else {
      assert (tags + [tag])[1..] == tags[1..] + [tag];
      PendingTagsAppend(named, tags[1..], tag, done);
    }
  }

  class Walk {
    const cfg: Config

    // the state of the walk
    var ruleIndex: nat
    var options: QueryOptions
    var anonymous: Option<Future>
    var namedFutures: map<Tag, Future>
    var namedResponses: map<Tag, Option<Msg>>
    var namedTransports: map<Tag, Transport>
    var futures: seq<Future>
    var settled: set<nat>
    var armed: seq<Armed>
    var terminal: Option<Future>

    // what the servers change
    var done: set<nat>
    var wake: bool

    /** The steps taken so far, and the phase they led to. */
    ghost var trace: seq<Step>
    ghost var phase: Phase

    /** The state of the walk as a value. */
    function State(): WalkState
      reads this
    {
      WalkState(ruleIndex, options, anonymous, namedFutures, namedResponses, namedTransports, futures, settled, armed, terminal)
    }

    ghost function Machine(): Sys
      reads this
    {
      Sys(State(), done, wake, phase)
    }

    ghost predicate Valid()
      reads this
    {
      Runs(cfg, Start(cfg), trace, Machine())
    }

    constructor (cfg: Config)
      ensures this.cfg == cfg && Valid() && trace == [] && phase == Walking && Machine() == Start(cfg)
    {
      this.cfg := cfg;
      ruleIndex, options, anonymous := 0, cfg.initial, None;
      namedFutures, namedResponses, namedTransports := map[], map[], map[];
      futures, settled, armed, terminal := [], {}, [], None;
      done, wake, trace, phase := {}, false, [], Walking;
    }

    /** Moves the answers that have arrived into the named responses. */
    method SettleFutures()
      modifies this`settled, this`namedResponses, this`namedTransports
      ensures State() == Settle(cfg, old(State()), done)
    {
      for k := 0 to |futures|
        invariant futures == old(futures)
        invariant SettleFrom(cfg, State(), done, k) == SettleFrom(cfg, old(State()), done, 0)
      {
        var f := futures[k];
        if f.id !in settled && f.id in done {
          settled := settled + {f.id};
          if f.tag != Untagged {
            namedResponses := namedResponses[f.tag := AnswerOf(cfg, f)];
            namedTransports := namedTransports[f.tag := f.query.transport];
          }
        }
      }
    }

    /** Judges the armed rules whose answers are in, in the order they were armed. */
    method SweepArmed() returns (verdict: Option<Verdict>)
      modifies this`armed
      ensures (State(), verdict) == Sweep(cfg, old(State()), done)
    {
      var index := 0;
      while index < |armed|
        invariant 0 <= index
        invariant SweepFrom(cfg, State(), done, index) == SweepFrom(cfg, old(State()), done, 0)
        decreases |armed| - index
      {
        var entry := armed[index];
        var ready := IsReady(entry);
        if ready {
          verdict := JudgeArmed(cfg, State(), done, entry);
          armed := armed[..index] + armed[index + 1..];
          if verdict.Some? {
            return;
          }
        } else {
          index := index + 1;
        }
      }
      verdict := None;
    }

    method IsReady(entry: Armed) returns (ready: bool)
      ensures ready <==> ArmedReady(entry, done)
    {
      for k := 0 to |entry.pending|
        invariant forall j :: 0 <= j < k ==> entry.pending[j].id in done
      {
        if entry.pending[k].id !in done {
          assert entry.pending[k] in entry.pending;
          return false;
        }
      }
      return true;
    }

    /** The futures a rule still has to wait for, tags first. */
    method CollectPending(rule: Rule) returns (pending: seq<Future>)
      ensures pending == PendingOf(namedFutures, anonymous, rule, done)
    {
      pending := [];
      for k := 0 to |rule.tags|
        invariant pending == PendingTags(namedFutures, rule.tags[..k], done)
      {
        PendingTagsMore(namedFutures, rule.tags, done, k);
        pending := pending + Unresolved(NamedFuture(namedFutures, rule.tags[k]), done);
      }
      assert rule.tags[..|rule.tags|] == rule.tags;
      if rule.anonymous {
        pending := pending + Unresolved(anonymous, done);
      }
    }

    method LaunchQuery(tag: Tag, early: bool, query: Query) returns (f: Future)
      modifies this`futures
      ensures f == Launch(old(State()), ruleIndex, tag, early, query).1
      ensures State() == Launch(old(State()), ruleIndex, tag, early, query).0
    {
      f := Future(|futures|, ruleIndex, tag, early, query);
      futures := futures + [f];
    }

    /** The action of a rule that matched. */
    method Act(rule: Rule) returns (signal: Signal)
      requires ruleIndex < |cfg.rules| && rule == cfg.rules[ruleIndex]
      modifies this`ruleIndex, this`options, this`anonymous, this`namedFutures, this`futures, this`terminal
      ensures State() == ActionStep(cfg, old(State()), done).state
      ensures signal == SignalOf(ActionStep(cfg, old(State()), done))
    {
      signal := Onward;
      match rule.action
      case SetOptions(opts) =>
        options := ApplyOptions(options, opts);
        ruleIndex := ruleIndex + 1;
      case Evaluate(server, tag, speculative, opts) =>
        if server !in cfg.transports {
          if tag == Untagged {
            anonymous := None;
          }
        } else if !speculative && |armed| > 0 {
          return Halt(Drain);
        } else {
          var f := LaunchQuery(tag, false, MakeQuery(cfg, cfg.transports[server], ApplyOptions(options, opts)));
          if tag == Untagged {
            anonymous := Some(f);
          } else {
            namedFutures := namedFutures[tag := f];
          }
        }
        ruleIndex := ruleIndex + 1;
      case Respond =>
        if |armed| > 0 {
          return Halt(Drain);
        }
        if rule.respondTag != Untagged {
          return Result(RespondOutcome(ruleIndex, NamedResponse(State(), rule.respondTag), NamedTransport(State(), rule.respondTag)));
        }
        if !rule.Binds() && anonymous.Some? && anonymous.value.id !in done {
          return Halt(Await(anonymous.value));
        }
        return Result(RespondOutcome(ruleIndex, ViewOfOption(cfg, done, anonymous), TransportOf(anonymous)));
      case Route(server, speculative, opts) =>
        var query := ResolveRoute(cfg, server, opts, options);
        if query.None? {
          ruleIndex := ruleIndex + 1;
        } else if |armed| > 0 {
          if speculative && terminal.None? {
            var f := LaunchQuery(Untagged, true, query.value);
            terminal := Some(f);
          }
          return Halt(Drain);
        } else if terminal.Some? && terminal.value.rule == ruleIndex {
          return Halt(Ready(Pending(ruleIndex, terminal.value.query, terminal)));
        } else {
          return Halt(Ready(Pending(ruleIndex, query.value, None)));
        }
      case Reject(how) =>
        if |armed| > 0 {
          return Halt(Drain);
        }
        match how {
          case RejectDefault => return Result(Refused(ruleIndex));
          case RejectDrop => return Result(Dropped(ruleIndex));
          case RejectOther => ruleIndex := ruleIndex + 1;
        }
      case Predefined =>
        if |armed| > 0 {
          return Halt(Drain);
        }
        return Result(Canned(ruleIndex));
    }

    /** A race rule: arm it, and judge at once when nothing is pending. */
    method Arm(rule: Rule) returns (signal: Signal)
      requires ruleIndex < |cfg.rules| && rule == cfg.rules[ruleIndex]
      modifies this`ruleIndex, this`armed
      ensures State() == RaceAction(cfg, old(State()), done).state
      ensures signal == SignalOf(RaceAction(cfg, old(State()), done))
    {
      var pending := CollectPending(rule);
      armed := armed + [Armed(ruleIndex, rule, pending, if rule.anonymous then anonymous else None, options)];
      if pending == [] {
        var verdict := SweepArmed();
        if verdict.Some? {
          match verdict.value {
            case Send(p) =>
              armed := [];
              return Halt(Ready(p));
            case Final(o) => return Result(o);
          }
        }
      }
      ruleIndex := ruleIndex + 1;
      return Onward;
    }

    /** One turn of the walk's loop. */
    method Turn() returns (signal: Signal)
      modifies this`ruleIndex, this`options, this`anonymous, this`namedFutures, this`futures, this`terminal,
               this`settled, this`namedResponses, this`namedTransports, this`armed
      ensures State() == RuleStep(cfg, old(State()), done).state
      ensures signal == SignalOf(RuleStep(cfg, old(State()), done))
    {
      SettleKeeps(cfg, State(), done, 0);
      if ruleIndex >= |cfg.rules| {
        if |armed| > 0 {
          return Halt(Drain);
        }
        return Halt(Ready(Pending(|cfg.rules|, MakeQuery(cfg, cfg.fallback, options), None)));
      }
      var rule := cfg.rules[ruleIndex];
      if rule.Binds() {
        SettleFutures();
        if rule.race {
          signal := Arm(rule);
          return;
        }
        var pending := CollectPending(rule);
        if pending != [] {
          return Halt(Await(pending[0]));
        }
      }
      if !cfg.matches(ruleIndex, BoundView(rule, namedResponses, ViewOfOption(cfg, done, anonymous))) {
        ruleIndex := ruleIndex + 1;
        return Onward;
      }
      signal := Act(rule);
    }

    /** The exchange took a step of the state machine. */
    ghost method Record(step: Step, s: Sys, p: Phase)
      requires Runs(cfg, Start(cfg), trace, s) && Enabled(s, step) && Apply(cfg, s, step) == Machine().(phase := p)
      modifies this`trace, this`phase
      ensures Valid() && phase == p
    {
      Extend(cfg, trace, s, step);
      trace, phase := trace + [step], p;
    }

    /** The servers answer any number of open queries, in any order. */
    method Interfere()
      requires Valid() && WellFormed(cfg.rules)
      modifies this`done, this`wake, this`trace
      ensures Valid() && State() == old(State())
      ensures Machine() == old(Machine()) || Below(cfg, Machine(), old(Machine()))
    {
      while *
        invariant Valid()
        invariant Machine() == old(Machine()) || Below(cfg, Machine(), old(Machine()))
        decreases Open(|futures|, done)
      {
        if id :| 0 <= id < |futures| && id !in done {
          AnswerArrives(id);
        } else {
          break;
        }
      }
    }

    /** A server answers: the future is done, and the wake channel holds a token. */
    method AnswerArrives(id: nat)
      requires Valid() && id < |futures| && id !in done
      modifies this`done, this`wake, this`trace
      ensures Valid() && done == old(done) + {id} && wake
      ensures Open(|futures|, done) < Open(|futures|, old(done))
      ensures Below(cfg, Machine(), old(Machine()))
    {
      OpenComplete(|futures|, done, id);
      ghost var before := Machine();
      done, wake := done + {id}, true;
      Extend(cfg, trace, before, Complete(id));
      trace := trace + [Complete(id)];
    }

    /** The servers answer, then the walk takes a turn. */
    method TurnAmidAnswers() returns (signal: Signal)
      requires Valid() && WellFormed(cfg.rules) && phase == Walking
      modifies this
      ensures Valid() && phase == PhaseAfter(signal)
      ensures Below(cfg, Machine(), old(Machine()))
    {
      Interfere();
      ghost var before := Machine();
      StartInv(cfg);
      RunInv(cfg, Start(cfg), trace, before);
      StepDescends(cfg, before, WalkSystem.Turn);
      signal := Turn();
      Record(WalkSystem.Turn, before, PhaseAfter(signal));
      if before != old(Machine()) {
        BelowTransitive(cfg, Machine(), before, old(Machine()));
      }
    }

    /** Walks the rules until the walk suspends or commits. */
    method WalkRules() returns (signal: Signal)
      requires Valid() && WellFormed(cfg.rules) && phase == Walking
      modifies this
      ensures Valid() && !signal.Onward? && phase == PhaseAfter(signal)
      ensures Below(cfg, Machine(), old(Machine()))
    {
      signal := TurnAmidAnswers();
      while signal.Onward?
        invariant Valid() && phase == PhaseAfter(signal)
        invariant Below(cfg, Machine(), old(Machine()))
        decreases RulesLeft(cfg, Machine()), Open(|futures|, done), Token(Machine()), ArmedLeft(Machine()), PhaseRank(Machine())
      {
        ghost var before := Machine();
        signal := TurnAmidAnswers();
        BelowTransitive(cfg, Machine(), before, old(Machine()));
      }
    }

    /** Settles, sweeps and checks whether the suspension is over. */
    method ResumeOnce(suspension: Suspension)
      returns (outcome: Option<Outcome>, pending: Option<Pending>, blocked: bool)
      requires Valid() && WellFormed(cfg.rules) && phase == Resuming(suspension)
      modifies this`settled, this`namedResponses, this`namedTransports, this`armed, this`trace, this`phase
      ensures Valid() && Below(cfg, Machine(), old(Machine()))
      ensures phase == if outcome.Some? then Finished(outcome.value)
                       else if pending.Some? then Finishing(pending.value)
                       else if blocked then Waiting(suspension) else Walking
    {
      ghost var before := Machine();
      ResumeDescends(cfg, before);
      SettleFutures();
      var verdict := SweepArmed();
      outcome, pending, blocked := None, None, false;
      if verdict.Some? {
        match verdict.value {
          case Final(o) => outcome := Some(o);
          case Send(p) => pending := Some(p);
        }
      } else {
        match suspension {
          case Ready(p) => pending := Some(p);
          case Await(f) => blocked := f.id !in done;
          case Drain => blocked := |armed| > 0;
        }
      }
      Record(WalkSystem.Resume, before,
             if outcome.Some? then Finished(outcome.value)
             else if pending.Some? then Finishing(pending.value)
             else if blocked then Waiting(suspension) else Walking);
    }

    /** Blocks on the wake channel until a server answers. False: the caller gave up first. */
    method AwaitWake(suspension: Suspension) returns (woken: bool)
      requires Valid() && WellFormed(cfg.rules) && phase == Waiting(suspension)
      modifies this`done, this`wake, this`trace, this`phase
      ensures Valid() && Below(cfg, Machine(), old(Machine()))
      ensures phase == if woken then Resuming(suspension) else Finished(Cancelled)
    {
      if * {
        GiveUp();
        return false;
      }
      if !wake {
        ghost var f := OwedAnswer();
        assert 0 <= f.id < |futures| && f.id !in done;
        var id: nat :| 0 <= id < |futures| && id !in done;
        AnswerArrives(id);
      }
      ghost var before := Machine();
      TakeWake(suspension);
      if before != old(Machine()) {
        BelowTransitive(cfg, Machine(), before, old(Machine()));
      }
      return true;
    }

    method TakeWake(suspension: Suspension)
      requires Valid() && phase == Waiting(suspension) && wake
      modifies this`wake, this`trace, this`phase
      ensures Valid() && phase == Resuming(suspension) && Below(cfg, Machine(), old(Machine()))
    {
      ghost var before := Machine();
      wake := false;
      Record(Wake, before, Resuming(suspension));
    }

    /** The caller's context ends while the exchange waits. */
    ghost method GiveUp()
      requires Valid() && (phase.Waiting? || phase.Finishing?)
      modifies this`trace, this`phase
      ensures Valid() && phase == Finished(Cancelled) && Below(cfg, Machine(), old(Machine()))
    {
      ghost var before := Machine();
      Record(Cancel, before, Finished(Cancelled));
    }

    ghost method OwedAnswer() returns (f: Future)
      requires Valid() && WellFormed(cfg.rules) && phase.Waiting? && !wake
      ensures Known(futures, f) && f.id !in done
    {
      StartInv(cfg);
      RunInv(cfg, Start(cfg), trace, Machine());
      RunAlert(cfg, Start(cfg), trace, Machine());
      f := WaitedFor(cfg, Machine());
    }

    /** Sends the last query, or waits for the one that was started early. */
    method FinishPending(pending: Pending) returns (outcome: Outcome)
      requires Valid() && WellFormed(cfg.rules) && phase == Finishing(pending)
      modifies this`done, this`wake, this`trace, this`phase
      ensures Valid() && phase == Finished(outcome)
    {
      StartInv(cfg);
      RunInv(cfg, Start(cfg), trace, Machine());
      if * {
        GiveUp();
        return Cancelled;
      }
      if pending.future.Some? && pending.future.value.id !in done {
        AnswerArrives(pending.future.value.id);
      }
      outcome := Exchanged(pending.rule, pending.query, cfg.answer(pending.rule, pending.query));
      ghost var before := Machine();
      Record(Finish, before, Finished(outcome));
    }

    /** The resume loop. */
    method ResumeExchange(first: Suspension) returns (outcome: Outcome)
      requires Valid() && WellFormed(cfg.rules) && phase == Resuming(first)
      modifies this
      ensures Valid() && phase == Finished(outcome)
    {
      var suspension := first;
      while true
        invariant Valid() && phase == Resuming(suspension)
        decreases RulesLeft(cfg, Machine()), Open(|futures|, done), Token(Machine()), ArmedLeft(Machine()), PhaseRank(Machine())
      {
        ghost var top := Machine();
        Interfere();
        ghost var before := Machine();
        var committed, pending, blocked := ResumeOnce(suspension);
        if committed.Some? {
          return committed.value;
        }
        if pending.Some? {
          outcome := FinishPending(pending.value);
          return;
        }
        ghost var middle := Machine();
        if blocked {
          var woken := AwaitWake(suspension);
          if !woken {
            return Cancelled;
          }
        } else {
          var signal := WalkRules();
          if signal.Result? {
            return signal.outcome;
          }
          suspension := signal.suspension;
        }
        BelowTransitive(cfg, Machine(), middle, before);
        if before != top {
          BelowTransitive(cfg, Machine(), before, top);
        }
      }
    }
  }

  /**
   One exchange, for every way the servers may answer. It ends, and its result is a possible one, that of the rule
   that decides; without race rules it is the result of the sequential interpreter.
   */
  method ExchangeWithRules(cfg: Config) returns (outcome: Outcome)
    requires WellFormed(cfg.rules)
    ensures outcome == Cancelled || (Ref.Possible(cfg, outcome) && Meaning.Explained(cfg, outcome))
    ensures Ref.NoRace(cfg) ==> outcome == Cancelled || outcome == Ref.Sequential(cfg, 0, Ref.InitialEnv(cfg))
  {
    var walk := new Walk(cfg);
    var signal := walk.WalkRules();
    if signal.Result? {
      outcome := signal.outcome;
    } else {
      outcome := walk.ResumeExchange(signal.suspension);
    }
    OutcomeIsPossible(cfg, walk.trace, walk.Machine());
    Meaning.OutcomeIsExplained(cfg, walk.trace, walk.Machine());
    if Ref.NoRace(cfg) {
      OutcomeIsSequential(cfg, walk.trace, walk.Machine());
    }
  }
}
