/**
 What an exchange commits, said from the rule list alone: which rule decides, with which options a query is sent, and
 which earlier query a response comes from.
 */
module WalkMeaning {
  import opened Wrappers
  import opened DnsTypes
  import opened RuleWalk
  import opened WalkSystem
  import opened WalkSafety
  import opened WalkRuns
  import Ref = WalkReference

  // ---------------------------------------------------------------- options

  /** The rule's options say something about the client subnet. */
  predicate TouchesSubnet(r: RouteOptions) {
    r.clientSubnet.Some? || r.removeSubnet
  }

  /** No options from position i on give a TTL, a timeout, or touch the subnet. */
  predicate NoTTLFrom(given: seq<RouteOptions>, i: nat) {
    forall j :: i <= j < |given| ==> given[j].rewriteTTL.None?
  }

  predicate NoTimeoutFrom(given: seq<RouteOptions>, i: nat) {
    forall j :: i <= j < |given| ==> given[j].timeout <= 0
  }

  predicate NoSubnetFrom(given: seq<RouteOptions>, i: nat) {
    forall j :: i <= j < |given| ==> !TouchesSubnet(given[j])
  }

  ghost predicate SwitchesGiven(first: QueryOptions, given: seq<RouteOptions>, o: QueryOptions) {
    && o.strategy == first.strategy
    && (o.disableCache <==> first.disableCache || exists i :: 0 <= i < |given| && given[i].disableCache)
    && (o.disableOptimistic <==> first.disableOptimistic || exists i :: 0 <= i < |given| && given[i].disableOptimistic)
  }

  ghost predicate TTLGiven(first: QueryOptions, given: seq<RouteOptions>, o: QueryOptions) {
    && (NoTTLFrom(given, 0) ==> o.rewriteTTL == first.rewriteTTL)
    && (forall i :: 0 <= i < |given| && given[i].rewriteTTL.Some? && NoTTLFrom(given, i + 1) ==> o.rewriteTTL == given[i].rewriteTTL)
  }

  ghost predicate TimeoutGiven(first: QueryOptions, given: seq<RouteOptions>, o: QueryOptions) {
    && (NoTimeoutFrom(given, 0) ==> o.timeout == first.timeout)
    && (forall i :: 0 <= i < |given| && given[i].timeout > 0 && NoTimeoutFrom(given, i + 1) ==> o.timeout == given[i].timeout)
  }

  /** Removing wins over setting in the same rule. */
  ghost predicate SubnetGiven(first: QueryOptions, given: seq<RouteOptions>, o: QueryOptions) {
    && (NoSubnetFrom(given, 0) ==> o.clientSubnet == first.clientSubnet && o.removeSubnet == first.removeSubnet)
    && (forall i :: 0 <= i < |given| && TouchesSubnet(given[i]) && NoSubnetFrom(given, i + 1) ==>
          if given[i].removeSubnet then o.clientSubnet.None? && o.removeSubnet
          else o.clientSubnet == given[i].clientSubnet && !o.removeSubnet)
  }

  /** The options that come of the first ones and those given after them: switches add up, the last value wins. */
  ghost predicate Accumulated(first: QueryOptions, given: seq<RouteOptions>, o: QueryOptions) {
    SwitchesGiven(first, given, o) && TTLGiven(first, given, o) && TimeoutGiven(first, given, o) && SubnetGiven(first, given, o)
  }

  lemma SwitchesMore(first: QueryOptions, given: seq<RouteOptions>, o: QueryOptions, r: RouteOptions)
    requires SwitchesGiven(first, given, o)
    ensures SwitchesGiven(first, given + [r], ApplyOptions(o, r))
  {
    var more := given + [r];
    assert more[|given|] == r;
    assert forall i :: 0 <= i < |given| ==> more[i] == given[i];
  }

  lemma TTLMore(first: QueryOptions, given: seq<RouteOptions>, o: QueryOptions, r: RouteOptions)
    requires TTLGiven(first, given, o)
    ensures TTLGiven(first, given + [r], ApplyOptions(o, r))
  {
    var more := given + [r];
    assert more[|given|] == r;
    if r.rewriteTTL.None? {
      forall i | 0 <= i <= |given| && NoTTLFrom(more, i)
        ensures NoTTLFrom(given, i)
      {
        assert forall j :: i <= j < |given| ==> given[j] == more[j];
      }
    }
  }

  lemma TimeoutMore(first: QueryOptions, given: seq<RouteOptions>, o: QueryOptions, r: RouteOptions)
    requires TimeoutGiven(first, given, o)
    ensures TimeoutGiven(first, given + [r], ApplyOptions(o, r))
  {
    var more := given + [r];
    assert more[|given|] == r;
    if r.timeout <= 0 {
      forall i | 0 <= i <= |given| && NoTimeoutFrom(more, i)
        ensures NoTimeoutFrom(given, i)
      {
        assert forall j :: i <= j < |given| ==> given[j] == more[j];
      }
    }
  }

  lemma SubnetMore(first: QueryOptions, given: seq<RouteOptions>, o: QueryOptions, r: RouteOptions)
    requires SubnetGiven(first, given, o)
    ensures SubnetGiven(first, given + [r], ApplyOptions(o, r))
  {
    var more := given + [r];
    assert more[|given|] == r;
    if !TouchesSubnet(r) {
      forall i | 0 <= i <= |given| && NoSubnetFrom(more, i)
        ensures NoSubnetFrom(given, i)
      {
        assert forall j :: i <= j < |given| ==> given[j] == more[j];
      }
    }
  }

  /** Applying the options of one more rule. */
  lemma AccumulatedMore(first: QueryOptions, given: seq<RouteOptions>, o: QueryOptions, r: RouteOptions)
    requires Accumulated(first, given, o)
    ensures Accumulated(first, given + [r], ApplyOptions(o, r))
  {
    SwitchesMore(first, given, o, r);
    TTLMore(first, given, o, r);
    TimeoutMore(first, given, o, r);
    SubnetMore(first, given, o, r);
  }

  /** The options are determined by this. */
  lemma {:induction false} AccumulatedIsUnique(first: QueryOptions, given: seq<RouteOptions>, o: QueryOptions, p: QueryOptions)
    requires Accumulated(first, given, o) && Accumulated(first, given, p)
    ensures o == p
  {
    LastTTL(given, |given|);
    LastTimeout(given, |given|);
    LastSubnet(given, |given|);
  }

  lemma {:induction false} LastTTL(given: seq<RouteOptions>, n: nat)
    requires n <= |given| && NoTTLFrom(given, n)
    ensures NoTTLFrom(given, 0) || exists i :: 0 <= i < |given| && given[i].rewriteTTL.Some? && NoTTLFrom(given, i + 1)
  {
    if n > 0 && given[n - 1].rewriteTTL.None? {
      LastTTL(given, n - 1);
    }
  }

  lemma {:induction false} LastTimeout(given: seq<RouteOptions>, n: nat)
    requires n <= |given| && NoTimeoutFrom(given, n)
    ensures NoTimeoutFrom(given, 0) || exists i :: 0 <= i < |given| && given[i].timeout > 0 && NoTimeoutFrom(given, i + 1)
  {
    if n > 0 && given[n - 1].timeout <= 0 {
      LastTimeout(given, n - 1);
    }
  }

  lemma {:induction false} LastSubnet(given: seq<RouteOptions>, n: nat)
    requires n <= |given| && NoSubnetFrom(given, n)
    ensures NoSubnetFrom(given, 0) || exists i :: 0 <= i < |given| && TouchesSubnet(given[i]) && NoSubnetFrom(given, i + 1)
  {
    if n > 0 && !TouchesSubnet(given[n - 1]) {
      LastSubnet(given, n - 1);
    }
  }

  /** What the options of an exchange start from: an unset strategy is the router's, a fake-IP route has no cache. */
  function Base(cfg: Config, noCache: bool): QueryOptions {
    var first := cfg.initial;
    QueryOptions(if first.strategy == AsIs then cfg.defaultStrategy else first.strategy, first.disableCache || noCache,
                 first.disableOptimistic, first.rewriteTTL, first.timeout, first.clientSubnet, first.removeSubnet)
  }

  /** The query goes to the server with what the rules gave. */
  ghost predicate Sent(cfg: Config, t: Transport, noCache: bool, given: seq<RouteOptions>, q: Query) {
    q.transport == t && Accumulated(Base(cfg, noCache), given, q.options)
  }

  lemma SentQuery(cfg: Config, t: Transport, noCache: bool, given: seq<RouteOptions>, o: QueryOptions)
    requires Accumulated(cfg.initial, given, o)
    ensures Sent(cfg, t, noCache, given, MakeQuery(cfg, t, if noCache then o.(disableCache := true) else o))
  {
    var q := MakeQuery(cfg, t, if noCache then o.(disableCache := true) else o);
    assert SwitchesGiven(Base(cfg, noCache), given, q.options);
    assert TTLGiven(Base(cfg, noCache), given, q.options);
    assert TimeoutGiven(Base(cfg, noCache), given, q.options);
    assert SubnetGiven(Base(cfg, noCache), given, q.options);
  }

  // ---------------------------------------------------------------- which rules act

  /** The rule waits for its turn; the others race. */
  predicate InOrder(rule: Rule) {
    !rule.race || (rule.tags == [] && !rule.anonymous)
  }

  /** The rule matches what it is bound to, in the state the rules before it left. */
  predicate Meets(cfg: Config, k: nat) {
    k < |cfg.rules| && Ref.Matches(cfg, k, Ref.EnvAt(cfg, k))
  }

  /** The rule acts at its turn. */
  predicate Takes(cfg: Config, k: nat) {
    Meets(cfg, k) && InOrder(cfg.rules[k])
  }

  /** The action ends an exchange. */
  predicate Final(cfg: Config, action: Action) {
    match action
    case Respond => true
    case Predefined => true
    case Reject(how) => how == RejectDefault || how == RejectDrop
    case Route(server, _, _) => server in cfg.transports && (cfg.transports[server].fakeIP ==> cfg.allowFakeIP)
    case _ => false
  }

  predicate Stops(cfg: Config, k: nat) {
    Takes(cfg, k) && Final(cfg, cfg.rules[k].action)
  }

  /** No rule in front of rule n ends the exchange at its turn. */
  predicate Reached(cfg: Config, n: nat) {
    forall k :: 0 <= k < n ==> !Stops(cfg, k)
  }

  /** The interpreter gets to a rule exactly when no earlier one stops it. */
  lemma {:induction false} ReachedIff(cfg: Config, n: nat)
    requires n <= |cfg.rules|
    ensures Reached(cfg, n) <==> !Ref.PointAt(cfg, n).ended
  {
    if n > 0 {
      ReachedIff(cfg, n - 1);
      NextReached(cfg, n - 1);
    }
  }

  lemma NextReached(cfg: Config, k: nat)
    requires k < |cfg.rules| && (Reached(cfg, k) <==> !Ref.PointAt(cfg, k).ended)
    ensures Reached(cfg, k + 1) <==> !Ref.PointAt(cfg, k + 1).ended
  {
    assert Reached(cfg, k + 1) <==> Reached(cfg, k) && !Stops(cfg, k);
    FinalIff(cfg, k);
    PassIff(cfg, k, Ref.PointAt(cfg, k));
  }

  lemma FinalIff(cfg: Config, k: nat)
    requires k < |cfg.rules|
    ensures Final(cfg, cfg.rules[k].action) <==> Ref.Conclude(cfg, k, Ref.EnvAt(cfg, k)).Some?
  {
  }

  lemma PassIff(cfg: Config, k: nat, p: Ref.Point)
    requires k < |cfg.rules|
    ensures Ref.Pass(cfg, k, p).ended <==>
      (p.ended || (InOrder(cfg.rules[k]) && Ref.Matches(cfg, k, p.env) && Ref.Conclude(cfg, k, p.env).Some?))
    ensures !Ref.Pass(cfg, k, p).ended ==>
      Ref.Pass(cfg, k, p).env == if InOrder(cfg.rules[k]) && Ref.Matches(cfg, k, p.env) then Ref.Effect(cfg, k, p.env) else p.env
  {
  }

  /** One rule further, what a rule that acts has changed. */
  lemma NextEnv(cfg: Config, n: nat)
    requires n < |cfg.rules| && Reached(cfg, n + 1)
    ensures Reached(cfg, n)
    ensures Ref.EnvAt(cfg, n + 1) == if Takes(cfg, n) then Ref.Effect(cfg, n, Ref.EnvAt(cfg, n)) else Ref.EnvAt(cfg, n)
  {
    ReachedIff(cfg, n + 1);
    PassIff(cfg, n, Ref.PointAt(cfg, n));
  }

  /** The options of the matched options rules in front of rule n, in their order. */
  function Given(cfg: Config, n: nat): seq<RouteOptions>
    requires n <= |cfg.rules|
  {
    if n == 0 then []
    else Given(cfg, n - 1) + if Takes(cfg, n - 1) && cfg.rules[n - 1].action.SetOptions? then [cfg.rules[n - 1].action.opts] else []
  }

  /** The options at rule n are those the exchange began with and those given since. */
  lemma {:induction false} OptionsAt(cfg: Config, n: nat)
    requires n <= |cfg.rules| && Reached(cfg, n)
    ensures Accumulated(cfg.initial, Given(cfg, n), Ref.EnvAt(cfg, n).options)
  {
    if n == 0 {
      NothingGiven(cfg);
    } else {
      assert Reached(cfg, n - 1);
      OptionsAt(cfg, n - 1);
      NextOptions(cfg, n - 1);
    }
  }

  lemma NothingGiven(cfg: Config)
    ensures Accumulated(cfg.initial, Given(cfg, 0), Ref.EnvAt(cfg, 0).options)
  {
    assert NoTTLFrom(Given(cfg, 0), 0) && NoTimeoutFrom(Given(cfg, 0), 0) && NoSubnetFrom(Given(cfg, 0), 0);
  }

  lemma NextOptions(cfg: Config, k: nat)
    requires k < |cfg.rules| && Reached(cfg, k + 1) && Accumulated(cfg.initial, Given(cfg, k), Ref.EnvAt(cfg, k).options)
    ensures Accumulated(cfg.initial, Given(cfg, k + 1), Ref.EnvAt(cfg, k + 1).options)
  {
    NextEnv(cfg, k);
    if Takes(cfg, k) && cfg.rules[k].action.SetOptions? {
      AccumulatedMore(cfg.initial, Given(cfg, k), Ref.EnvAt(cfg, k).options, cfg.rules[k].action.opts);
    } else {
      assert Given(cfg, k + 1) == Given(cfg, k);
    }
  }

  // ---------------------------------------------------------------- which response is meant

  /** Rule k sets the response with this tag: it is a matched evaluate rule. */
  predicate Asks(cfg: Config, k: nat, tag: Tag) {
    Takes(cfg, k) && cfg.rules[k].action.Evaluate? && cfg.rules[k].action.tag == tag
  }

  /** A rule without its server leaves a tagged response as it was, but takes the untagged one away. */
  predicate Counts(cfg: Config, k: nat, tag: Tag) {
    Asks(cfg, k, tag) && (tag == Untagged || cfg.rules[k].action.server in cfg.transports)
  }

  /** The last rule in front of rule n that does. */
  function LastAsk(cfg: Config, n: nat, tag: Tag): (last: Option<nat>)
    ensures last.None? ==> forall k :: 0 <= k < n ==> !Counts(cfg, k, tag)
    ensures last.Some? ==> last.value < n && Counts(cfg, last.value, tag) && forall k :: last.value < k < n ==> !Counts(cfg, k, tag)
  {
    if n == 0 then None else if Counts(cfg, n - 1, tag) then Some(n - 1) else LastAsk(cfg, n - 1, tag)
  }

  ghost predicate IsEval(cfg: Config, k: nat, e: Ref.Eval) {
    && k < |cfg.rules| && cfg.rules[k].action.Evaluate? && cfg.rules[k].action.server in cfg.transports
    && e.rule == k
    && Sent(cfg, cfg.transports[cfg.rules[k].action.server], false, Given(cfg, k) + [cfg.rules[k].action.opts], e.query)
  }

  function Source(env: Ref.Env, tag: Tag): Option<Ref.Eval> {
    if tag == Untagged then env.anon else Ref.Named(env, tag)
  }

  /** The response with a tag, at rule n: that of the last evaluate rule for it. */
  ghost predicate SourceAt(cfg: Config, n: nat, tag: Tag, e: Option<Ref.Eval>) {
    var last := LastAsk(cfg, n, tag);
    if last.Some? && cfg.rules[last.value].action.server in cfg.transports then e.Some? && IsEval(cfg, last.value, e.value)
    else e.None?
  }

  lemma EvalIsSent(cfg: Config, k: nat)
    requires k < |cfg.rules| && Reached(cfg, k) && cfg.rules[k].action.Evaluate? && cfg.rules[k].action.server in cfg.transports
    ensures
      var action := cfg.rules[k].action;
      IsEval(cfg, k, Ref.Eval(k, MakeQuery(cfg, cfg.transports[action.server], ApplyOptions(Ref.EnvAt(cfg, k).options, action.opts))))
  {
    var action := cfg.rules[k].action;
    var options := Ref.EnvAt(cfg, k).options;
    OptionsAt(cfg, k);
    AccumulatedMore(cfg.initial, Given(cfg, k), options, action.opts);
    SentQuery(cfg, cfg.transports[action.server], false, Given(cfg, k) + [action.opts], ApplyOptions(options, action.opts));
  }

  lemma {:induction false} Sources(cfg: Config, n: nat, tag: Tag)
    requires n <= |cfg.rules| && Reached(cfg, n)
    ensures SourceAt(cfg, n, tag, Source(Ref.EnvAt(cfg, n), tag))
  {
    if n == 0 {
      NoSource(cfg, tag);
    } else {
      assert Reached(cfg, n - 1);
      Sources(cfg, n - 1, tag);
      NextSource(cfg, n - 1, tag);
    }
  }

  lemma NoSource(cfg: Config, tag: Tag)
    ensures SourceAt(cfg, 0, tag, Source(Ref.EnvAt(cfg, 0), tag))
  {
  }

  lemma NextSource(cfg: Config, k: nat, tag: Tag)
    requires k < |cfg.rules| && Reached(cfg, k + 1) && SourceAt(cfg, k, tag, Source(Ref.EnvAt(cfg, k), tag))
    ensures SourceAt(cfg, k + 1, tag, Source(Ref.EnvAt(cfg, k + 1), tag))
  {
    NextEnv(cfg, k);
    var env := Ref.EnvAt(cfg, k);
    if Counts(cfg, k, tag) {
      if cfg.rules[k].action.server in cfg.transports {
        EvalIsSent(cfg, k);
      }
      assert LastAsk(cfg, k + 1, tag) == Some(k);
    } else {
      EffectElsewhere(cfg, k, env, tag);
    }
  }

  lemma EffectElsewhere(cfg: Config, k: nat, env: Ref.Env, tag: Tag)
    requires k < |cfg.rules| && (Takes(cfg, k) ==> !Counts(cfg, k, tag))
    ensures Takes(cfg, k) ==> Source(Ref.Effect(cfg, k, env), tag) == Source(env, tag)
  {
  }

  function ReplyOf(cfg: Config, e: Option<Ref.Eval>): Option<Msg> {
    if e.None? then None else cfg.answer(e.value.rule, e.value.query)
  }

  /** The view shows the rule the answers it is bound to, and no others. */
  ghost predicate SeenBy(cfg: Config, k: nat, view: View)
    requires k < |cfg.rules|
  {
    var rule := cfg.rules[k];
    && (forall t :: t in view.named <==> t in rule.tags)
    && (forall t :: t in rule.tags && t != Untagged ==> exists e :: SourceAt(cfg, k, t, e) && view.named[t] == ReplyOf(cfg, e))
    && (if rule.anonymous then exists e :: SourceAt(cfg, k, Untagged, e) && view.anonymous == ReplyOf(cfg, e) else view.anonymous.None?)
  }

  /** A rule matches by what it is bound to: the answers behind its tags and, if it reads it, the untagged one. */
  lemma MatchesWhatItSees(cfg: Config, k: nat) returns (view: View)
    requires k < |cfg.rules| && Reached(cfg, k)
    ensures SeenBy(cfg, k, view) && (Meets(cfg, k) <==> cfg.matches(k, view))
  {
    var env := Ref.EnvAt(cfg, k);
    view := Ref.Sight(cfg, cfg.rules[k], env);
    forall t | t in cfg.rules[k].tags && t != Untagged
      ensures exists e :: SourceAt(cfg, k, t, e) && view.named[t] == ReplyOf(cfg, e)
    {
      Sources(cfg, k, t);
    }
    Sources(cfg, k, Untagged);
  }

  // ---------------------------------------------------------------- turns of the walk

  /** An answer the rule is bound to is still missing. */
  predicate Lacks(ws: WalkState, rule: Rule, done: set<nat>) {
    || (exists t :: t in rule.tags && t in ws.namedFutures && ws.namedFutures[t].id !in done)
    || (rule.anonymous && ws.anon.Some? && ws.anon.value.id !in done)
  }

  /** A race rule never holds the walk: it commits, or the walk goes on. Lacking an answer, it is put aside as it stands. */
  lemma RaceTurn(cfg: Config, ws: WalkState, done: set<nat>)
    requires ws.index < |cfg.rules| && !InOrder(cfg.rules[ws.index])
    ensures
      var r := RuleStep(cfg, ws, done);
      && (r.Suspend? ==> r.suspension.Ready?)
      && (r.Continue? ==> r.state.index == ws.index + 1 && r.state.futures == ws.futures && r.state.options == ws.options)
      && (Lacks(ws, cfg.rules[ws.index], done) ==>
            && r.Continue? && |r.state.armed| == |ws.armed| + 1 && r.state.armed[..|ws.armed|] == ws.armed
            && var a := r.state.armed[|ws.armed|];
               && a.index == ws.index && a.rule == cfg.rules[ws.index] && a.options == ws.options
               && a.anon == if a.rule.anonymous then ws.anon else None)
  {
    SettleKeeps(cfg, ws, done, 0);
    var now := Settle(cfg, ws, done);
    RaceActionTurn(cfg, now, done);
  }

  lemma RaceActionTurn(cfg: Config, ws: WalkState, done: set<nat>)
    requires ws.index < |cfg.rules|
    ensures
      var r := RaceAction(cfg, ws, done);
      && (r.Suspend? ==> r.suspension.Ready?)
      && (r.Continue? ==> r.state.index == ws.index + 1 && r.state.futures == ws.futures && r.state.options == ws.options)
      && (Lacks(ws, cfg.rules[ws.index], done) ==> r == Continue(Next(ws.(armed := ws.armed + [EntryOf(cfg, ws, done)]))))
  {
    PendingOfSpec(ws.namedFutures, ws.anon, cfg.rules[ws.index], done);
    SweepKeeps(cfg, ws.(armed := ws.armed + [EntryOf(cfg, ws, done)]), done, 0);
  }

  lemma {:induction false} SweepKeeps(cfg: Config, ws: WalkState, done: set<nat>, k: nat)
    ensures var after := SweepFrom(cfg, ws, done, k).0; after == ws.(armed := after.armed)
    decreases |ws.armed| - k
  {
    if k >= |ws.armed| {
    } else if !ArmedReady(ws.armed[k], done) {
      SweepKeeps(cfg, ws, done, k + 1);
    } else {
      SweepKeeps(cfg, ws.(armed := ws.armed[..k] + ws.armed[k + 1..]), done, k);
    }
  }

  /** Any other rule waits for what it lacks, and never joins the race. */
  lemma OrderedTurn(cfg: Config, ws: WalkState, done: set<nat>)
    requires ws.index < |cfg.rules| && InOrder(cfg.rules[ws.index])
    ensures
      var r := RuleStep(cfg, ws, done);
      && r.state.armed == ws.armed
      && (Lacks(ws, cfg.rules[ws.index], done) ==> r.Suspend? && r.suspension.Await? && r.suspension.future.id !in done)
  {
    SettleKeeps(cfg, ws, done, 0);
    var rule := cfg.rules[ws.index];
    var now := if rule.Binds() then Settle(cfg, ws, done) else ws;
    PendingOfSpec(now.namedFutures, now.anon, rule, done);
    ActionArmed(cfg, now, done);
  }

  lemma ActionArmed(cfg: Config, ws: WalkState, done: set<nat>)
    requires ws.index < |cfg.rules|
    ensures ActionStep(cfg, ws, done).state.armed == ws.armed
  {
  }

  /**
   The action of a matched rule while race rules are open. What is marked speculative goes ahead: an evaluate rule sends
   its query, a route rule starts its query early, once. Anything else that sends or answers has to wait.
   */
  lemma ActionWhileRacing(cfg: Config, ws: WalkState, done: set<nat>)
    requires ws.index < |cfg.rules| && ws.armed != []
    ensures
      var action, r := cfg.rules[ws.index].action, ActionStep(cfg, ws, done);
      var sends := |r.state.futures| == |ws.futures| + 1 && r.state.futures[..|ws.futures|] == ws.futures && r.state.futures[|ws.futures|].rule == ws.index;
      && (action.Evaluate? && action.server in cfg.transports && action.speculative ==> r.Continue? && sends)
      && (action.Route? && Final(cfg, action) && action.speculative && ws.terminal.None? ==>
            r.Suspend? && r.suspension.Drain? && sends && r.state.terminal == Some(r.state.futures[|ws.futures|]))
      && (action.Evaluate? && action.server in cfg.transports && !action.speculative ==> r == Suspend(ws, Drain))
      && (action.Route? && Final(cfg, action) && (!action.speculative || ws.terminal.Some?) ==> r == Suspend(ws, Drain))
      && (action.Respond? || action.Reject? || action.Predefined? ==> r == Suspend(ws, Drain))
      && ((action.Evaluate? || action.Route?) && action.server !in cfg.transports ==> r.Continue? && r.state.futures == ws.futures)
  {
  }

  // ---------------------------------------------------------------- what a rule commits

  /** The answer to the query behind a tag, or the lack of one. */
  ghost predicate Replies(cfg: Config, i: nat, tag: Tag, o: Outcome) {
    exists e :: SourceAt(cfg, i, tag, e) && RepliesWith(cfg, i, e, o)
  }

  predicate RepliesWith(cfg: Config, i: nat, e: Option<Ref.Eval>, o: Outcome) {
    if e.None? || cfg.answer(e.value.rule, e.value.query).None? then o == MissingResponse(i)
    else o == Answered(i, cfg.answer(e.value.rule, e.value.query).value, e.value.query.transport)
  }

  ghost predicate Routes(cfg: Config, i: nat, t: Transport, noCache: bool, given: seq<RouteOptions>, o: Outcome) {
    o.Exchanged? && o.rule == i && Sent(cfg, t, noCache, given, o.query) && o.result == cfg.answer(i, o.query)
  }

  /** Rule i, or the default server past the last rule, leads to this result. */
  ghost predicate Means(cfg: Config, i: nat, o: Outcome) {
    if i >= |cfg.rules| then i == |cfg.rules| && Routes(cfg, i, cfg.fallback, false, Given(cfg, i), o)
    else
      match cfg.rules[i].action
      case Respond => Replies(cfg, i, cfg.rules[i].respondTag, o)
      case Route(server, _, opts) =>
        && Final(cfg, cfg.rules[i].action)
        && Routes(cfg, i, cfg.transports[server], cfg.transports[server].fakeIP, Given(cfg, i) + [opts], o)
      case Reject(RejectDefault) => o == Refused(i)
      case Reject(RejectDrop) => o == Dropped(i)
      case Reject(RejectOther) => false
      case Predefined => o == Canned(i)
      case SetOptions(_) => false
      case Evaluate(_, _, _, _) => false
  }

  lemma RouteMeans(cfg: Config, i: nat)
    requires i < |cfg.rules| && Reached(cfg, i) && cfg.rules[i].action.Route?
    requires Ref.Conclude(cfg, i, Ref.EnvAt(cfg, i)).Some?
    ensures Means(cfg, i, Ref.Conclude(cfg, i, Ref.EnvAt(cfg, i)).value)
  {
    var action := cfg.rules[i].action;
    var options := Ref.EnvAt(cfg, i).options;
    var t := cfg.transports[action.server];
    OptionsAt(cfg, i);
    AccumulatedMore(cfg.initial, Given(cfg, i), options, action.opts);
    SentQuery(cfg, t, t.fakeIP, Given(cfg, i) + [action.opts], ApplyOptions(options, action.opts));
  }

  lemma ConcludeMeans(cfg: Config, i: nat)
    requires i < |cfg.rules| && Reached(cfg, i)
    requires Ref.Conclude(cfg, i, Ref.EnvAt(cfg, i)).Some?
    ensures Means(cfg, i, Ref.Conclude(cfg, i, Ref.EnvAt(cfg, i)).value)
  {
    var o := Ref.Conclude(cfg, i, Ref.EnvAt(cfg, i)).value;
    if cfg.rules[i].action.Route? {
      RouteMeans(cfg, i);
    } else if cfg.rules[i].action.Respond? {
      var tag := cfg.rules[i].respondTag;
      Sources(cfg, i, tag);
      assert RepliesWith(cfg, i, Source(Ref.EnvAt(cfg, i), tag), o);
    }
  }

  lemma FallbackMeans(cfg: Config)
    requires Reached(cfg, |cfg.rules|)
    ensures Means(cfg, |cfg.rules|, Ref.FallbackOutcome(cfg, Ref.EnvAt(cfg, |cfg.rules|)))
  {
    OptionsAt(cfg, |cfg.rules|);
    SentQuery(cfg, cfg.fallback, false, Given(cfg, |cfg.rules|), Ref.EnvAt(cfg, |cfg.rules|).options);
  }

  /** A rule that races, matches with all its answers, and would end the exchange. */
  predicate RaceWould(cfg: Config, k: nat) {
    k < |cfg.rules| && !InOrder(cfg.rules[k]) && Reached(cfg, k) && Meets(cfg, k) && Final(cfg, cfg.rules[k].action)
  }

  /** Rule i decides at its turn: it is the first to end the exchange, and no race rule would. */
  ghost predicate DecidesInOrder(cfg: Config, i: nat, o: Outcome) {
    && i <= |cfg.rules| && Reached(cfg, i) && (i < |cfg.rules| ==> Stops(cfg, i))
    && (forall k :: 0 <= k < |cfg.rules| ==> !RaceWould(cfg, k))
    && Means(cfg, i, o)
  }

  ghost predicate DecidesByRace(cfg: Config, i: nat, o: Outcome) {
    RaceWould(cfg, i) && Means(cfg, i, o)
  }

  ghost predicate Explained(cfg: Config, o: Outcome) {
    exists i :: DecidesInOrder(cfg, i, o) || DecidesByRace(cfg, i, o)
  }

  lemma HitIff(cfg: Config, k: nat)
    requires k < |cfg.rules|
    ensures Ref.Hit(cfg, k) <==> RaceWould(cfg, k)
  {
    ReachedIff(cfg, k);
    FinalIff(cfg, k);
  }

  /** Where the sequential interpreter stops. */
  lemma {:induction false} SequentialStop(cfg: Config, n: nat) returns (i: nat)
    requires n <= |cfg.rules| && Reached(cfg, n)
    ensures n <= i <= |cfg.rules| && Reached(cfg, i) && (i < |cfg.rules| ==> Stops(cfg, i))
    ensures Means(cfg, i, Ref.Sequential(cfg, n, Ref.EnvAt(cfg, n)))
    decreases |cfg.rules| - n
  {
    i := n;
    if n == |cfg.rules| {
      FallbackMeans(cfg);
    } else if Stops(cfg, n) {
      StopsHere(cfg, n);
    } else {
      GoesOn(cfg, n);
      i := SequentialStop(cfg, n + 1);
    }
  }

  lemma StopsHere(cfg: Config, n: nat)
    requires n < |cfg.rules| && Reached(cfg, n) && Stops(cfg, n)
    ensures Means(cfg, n, Ref.Sequential(cfg, n, Ref.EnvAt(cfg, n)))
  {
    FinalIff(cfg, n);
    ConcludeMeans(cfg, n);
  }

  lemma GoesOn(cfg: Config, n: nat)
    requires n < |cfg.rules| && Reached(cfg, n) && !Stops(cfg, n)
    ensures Reached(cfg, n + 1) && Ref.Sequential(cfg, n, Ref.EnvAt(cfg, n)) == Ref.Sequential(cfg, n + 1, Ref.EnvAt(cfg, n + 1))
  {
    FinalIff(cfg, n);
    NextEnv(cfg, n);
  }

  lemma PossibleIsExplained(cfg: Config, o: Outcome)
    requires Ref.Possible(cfg, o)
    ensures Explained(cfg, o)
  {
    if i :| 0 <= i < |cfg.rules| && Ref.WinsWith(cfg, i, o) {
      HitIff(cfg, i);
      ConcludeMeans(cfg, i);
      assert DecidesByRace(cfg, i, o);
    } else {
      forall k | 0 <= k < |cfg.rules|
        ensures !RaceWould(cfg, k)
      {
        HitIff(cfg, k);
      }
      var i := SequentialStop(cfg, 0);
      assert DecidesInOrder(cfg, i, o);
    }
  }

  /** In every run, the result is that of the rule that decides, by its action and what the rules before it gave. */
  lemma OutcomeIsExplained(cfg: Config, steps: seq<Step>, t: Sys)
    requires WellFormed(cfg.rules) && Runs(cfg, Start(cfg), steps, t) && t.phase.Finished?
    ensures t.phase.outcome == Cancelled || Explained(cfg, t.phase.outcome)
  {
    OutcomeIsPossible(cfg, steps, t);
    if t.phase.outcome != Cancelled {
      PossibleIsExplained(cfg, t.phase.outcome);
    }
  }
}
