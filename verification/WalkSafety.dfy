/** What every reachable state of an exchange keeps, and that every result is one the rule list allows. */
module WalkSafety {
  import opened Wrappers
  import opened DnsTypes
  import opened RuleWalk
  import opened WalkSystem
  import Ref = WalkReference

  // ---------------------------------------------------------------- well-formed rule lists

  predicate Defines(rule: Rule, tag: Tag) {
    rule.action.Evaluate? && rule.action.tag == tag
  }

  /** An evaluate tag belongs to one rule. */
  ghost predicate UniqueTags(rules: seq<Rule>) {
    forall i, j, tag :: 0 <= i < j < |rules| && Defines(rules[i], tag) && Defines(rules[j], tag) ==> tag == Untagged
  }

  /** A rule refers only to tags that an earlier evaluate rule defines. */
  ghost predicate TagsDefined(rules: seq<Rule>) {
    forall i, tag :: 0 <= i < |rules| && tag in rules[i].tags ==>
      tag != Untagged && exists j :: 0 <= j < i && Defines(rules[j], tag)
  }

  /** A respond rule answers with the response it matches on. */
  predicate RespondShape(rule: Rule) {
    rule.action.Respond? ==>
      if rule.respondTag != Untagged then rule.tags == [rule.respondTag] && !rule.anonymous
      else rule.tags == []
  }

  ghost predicate RespondBinding(rules: seq<Rule>) {
    forall i :: 0 <= i < |rules| ==> RespondShape(rules[i])
  }

  ghost predicate WellFormed(rules: seq<Rule>) {
    UniqueTags(rules) && TagsDefined(rules) && RespondBinding(rules)
  }

  // ---------------------------------------------------------------- the invariant

  function EvalOf(f: Future): Ref.Eval {
    Ref.Eval(f.rule, f.query)
  }

  function EvalOfOption(f: Option<Future>): Option<Ref.Eval> {
    if f.Some? then Some(EvalOf(f.value)) else None
  }

  function NamedEvals(named: map<Tag, Future>): map<Tag, Ref.Eval> {
    map t | t in named :: EvalOf(named[t])
  }

  /** The state of the sequential interpreter that the walk has reached. */
  function EnvOf(ws: WalkState): Ref.Env {
    Ref.Env(ws.options, EvalOfOption(ws.anon), NamedEvals(ws.namedFutures))
  }

  /** The state an armed rule was passed in. */
  function ArmedEnv(named: map<Tag, Future>, a: Armed): Ref.Env {
    Ref.Env(a.options, EvalOfOption(a.anon), NamedEvals(named))
  }

  /** f is one of the launched futures. */
  predicate Known(futures: seq<Future>, f: Future) {
    f.id < |futures| && futures[f.id] == f
  }

  ghost predicate Numbered(futures: seq<Future>) {
    forall k :: 0 <= k < |futures| ==> futures[k].id == k
  }

  ghost predicate LaunchedBy(cfg: Config, f: Future) {
    && f.rule < |cfg.rules|
    && var action := cfg.rules[f.rule].action;
       if f.terminal then f.tag == Untagged && action.Route?
       else action.Evaluate? && action.tag == f.tag && action.server in cfg.transports
            && f.query.transport == cfg.transports[action.server]
  }

  /** Each rule launches at most one query, in rule order, and only the rule the walk stands at launches early. */
  ghost predicate FuturesOk(cfg: Config, futures: seq<Future>, index: nat, terminal: Option<Future>) {
    && (forall k :: 0 <= k < |futures| ==> LaunchedBy(cfg, futures[k]))
    && (forall j, k :: 0 <= j < k < |futures| ==> futures[j].rule < futures[k].rule)
    && (forall k :: 0 <= k < |futures| ==>
          if futures[k].terminal then terminal == Some(futures[k]) else futures[k].rule < index)
  }

  ghost predicate NamesOk(futures: seq<Future>, named: map<Tag, Future>, anon: Option<Future>) {
    && (forall t :: t in named ==> Known(futures, named[t]) && named[t].tag == t && t != Untagged)
    && (forall k :: 0 <= k < |futures| && futures[k].tag != Untagged ==>
          futures[k].tag in named && named[futures[k].tag] == futures[k])
    && (anon.Some? ==> Known(futures, anon.value) && anon.value.tag == Untagged && !anon.value.terminal)
  }

  ghost predicate ResponsesOk(cfg: Config, named: map<Tag, Future>, settled: set<nat>,
                              responses: map<Tag, Option<Msg>>, transports: map<Tag, Transport>)
  {
    && (forall t :: t in responses <==> t in named && named[t].id in settled)
    && (forall t :: t in transports <==> t in responses)
    && (forall t :: t in responses ==>
          responses[t] == AnswerOf(cfg, named[t]) && transports[t] == named[t].query.transport)
  }

  ghost predicate DoneOk(futures: seq<Future>, settled: set<nat>, done: set<nat>) {
    settled <= done && forall id :: id in done ==> id < |futures|
  }

  /** Every future the rule is bound to is either waited for or resolved. */
  ghost predicate Covered(named: map<Tag, Future>, done: set<nat>, a: Armed) {
    && (forall t :: t in a.rule.tags && t in named ==> named[t] in a.pending || named[t].id in done)
    && (a.anon.Some? ==> a.anon.value in a.pending || a.anon.value.id in done)
  }

  ghost predicate ArmedOk(cfg: Config, futures: seq<Future>, named: map<Tag, Future>, index: nat, done: set<nat>, a: Armed) {
    && a.index < |cfg.rules| && a.index < index && a.rule == cfg.rules[a.index] && a.rule.Races()
    && (a.anon.Some? ==> a.rule.anonymous && Known(futures, a.anon.value))
    && (forall f :: f in a.pending ==> Known(futures, f))
    && Covered(named, done, a)
  }

  /** The response the rule would answer with was fixed when it was armed. */
  predicate SourceFixed(a: Armed) {
    a.rule.action.Respond? && a.rule.respondTag == Untagged ==> a.anon.Some?
  }

  ghost predicate AllArmedOk(cfg: Config, futures: seq<Future>, named: map<Tag, Future>, index: nat, done: set<nat>, armed: seq<Armed>) {
    forall a :: a in armed ==> ArmedOk(cfg, futures, named, index, done, a) && a.pending != [] && SourceFixed(a)
  }

  /** A speculative query belongs to the rule the walk stands at, and is the query that rule will ask for. */
  ghost predicate TerminalOk(cfg: Config, futures: seq<Future>, index: nat, terminal: Option<Future>, env: Ref.Env,
                             named: map<Tag, Future>, anon: Option<Future>, done: set<nat>)
  {
    terminal.Some? ==>
      && Known(futures, terminal.value) && terminal.value.terminal
      && terminal.value.rule == index < |cfg.rules|
      && var rule := cfg.rules[index];
         && !rule.Races()
         && PendingOf(named, anon, rule, done) == []
         && Ref.Matches(cfg, index, env)
         && rule.action.Route?
         && ResolveRoute(cfg, rule.action.server, rule.action.opts, env.options) == Some(terminal.value.query)
  }

  ghost predicate WalkInv(cfg: Config, ws: WalkState, done: set<nat>) {
    && ws.index <= |cfg.rules|
    && Numbered(ws.futures)
    && FuturesOk(cfg, ws.futures, ws.index, ws.terminal)
    && NamesOk(ws.futures, ws.namedFutures, ws.anon)
    && ResponsesOk(cfg, ws.namedFutures, ws.settled, ws.namedResponses, ws.namedTransports)
    && DoneOk(ws.futures, ws.settled, done)
    && AllArmedOk(cfg, ws.futures, ws.namedFutures, ws.index, done, ws.armed)
    && TerminalOk(cfg, ws.futures, ws.index, ws.terminal, EnvOf(ws), ws.namedFutures, ws.anon, done)
  }

  function JudgeOf(cfg: Config, named: map<Tag, Future>, a: Armed): Option<Outcome> {
    if a.index < |cfg.rules| then Ref.Judge(cfg, a.index, ArmedEnv(named, a)) else None
  }

  /** The rules whose queries have been answered. */
  function AnsweredRules(futures: seq<Future>, done: set<nat>): set<nat> {
    set k | 0 <= k < |futures| && k in done :: futures[k].rule
  }

  predicate Sorted(armed: seq<Armed>) {
    forall i, j :: 0 <= i < j < |armed| ==> armed[i].index < armed[j].index
  }

  ghost predicate IsArmed(armed: seq<Armed>, i: nat) {
    exists a :: a in armed && a.index == i
  }

  /** An armed rule will decide what the interpreter decides at it, and waits for what the interpreter binds there. */
  ghost predicate Faithful(cfg: Config, futures: seq<Future>, named: map<Tag, Future>, done: set<nat>, a: Armed) {
    && a.index < |cfg.rules|
    && JudgeOf(cfg, named, a) == Ref.Judge(cfg, a.index, Ref.EnvAt(cfg, a.index))
    && !Ref.PointAt(cfg, a.index).ended
    && (forall f :: f in a.pending ==> f.rule in Ref.BoundAt(cfg, a.index))
    && (forall r :: r in Ref.BoundAt(cfg, a.index) ==>
          r in AnsweredRules(futures, done) || exists f :: f in a.pending && f.rule == r)
    && Ref.PointAt(cfg, a.index).waited <= AnsweredRules(futures, done)
  }

  /** The walk stands where the interpreter stands, and no wait of the interpreter is left out. */
  ghost predicate EnvOnCourse(cfg: Config, index: nat, env: Ref.Env, answered: set<nat>) {
    && index <= |cfg.rules|
    && Ref.EnvAt(cfg, index) == env
    && !Ref.PointAt(cfg, index).ended
    && Ref.PointAt(cfg, index).waited <= answered
  }

  /** Every hit that was passed is still armed, and every query of a passed race rule is answered or waited for. */
  ghost predicate ArmedOnCourse(cfg: Config, index: nat, answered: set<nat>, armed: seq<Armed>) {
    && index <= |cfg.rules|
    && Sorted(armed)
    && (forall k :: 0 <= k < index && Ref.Hit(cfg, k) ==> IsArmed(armed, k))
    && (forall r :: r in Ref.PointAt(cfg, index).joined ==>
          r in answered || exists a :: a in armed && a.index < |cfg.rules| && r in Ref.BoundAt(cfg, a.index))
  }

  ghost predicate AllFaithful(cfg: Config, futures: seq<Future>, named: map<Tag, Future>, done: set<nat>, armed: seq<Armed>) {
    forall a :: a in armed ==> Faithful(cfg, futures, named, done, a)
  }

  ghost predicate OnCourse(cfg: Config, ws: WalkState, done: set<nat>) {
    && EnvOnCourse(cfg, ws.index, EnvOf(ws), AnsweredRules(ws.futures, done))
    && ArmedOnCourse(cfg, ws.index, AnsweredRules(ws.futures, done), ws.armed)
    && AllFaithful(cfg, ws.futures, ws.namedFutures, done, ws.armed)
  }

  ghost predicate PendingOk(cfg: Config, futures: seq<Future>, p: Pending) {
    && Ref.Possible(cfg, Ref.ExchangeOf(cfg, p.rule, p.query))
    && (p.future.Some? ==> Known(futures, p.future.value) && p.future.value.rule == p.rule && p.future.value.query == p.query)
    && (p.future.None? ==> forall k :: 0 <= k < |futures| ==> futures[k].rule != p.rule)
  }

  ghost predicate SuspensionOk(cfg: Config, ws: WalkState, done: set<nat>, s: Suspension) {
    match s
    case Await(f) => Known(ws.futures, f) && OnCourse(cfg, ws, done)
    case Drain => OnCourse(cfg, ws, done)
    case Ready(p) => ws.armed == [] && PendingOk(cfg, ws.futures, p)
  }

  ghost predicate OutcomeOk(cfg: Config, o: Outcome) {
    o == Cancelled || Ref.Possible(cfg, o)
  }

  ghost predicate PhaseOk(cfg: Config, s: Sys) {
    match s.phase
    case Walking => OnCourse(cfg, s.ws, s.done)
    case Resuming(suspension) => SuspensionOk(cfg, s.ws, s.done, suspension)
    case Waiting(suspension) => !suspension.Ready? && SuspensionOk(cfg, s.ws, s.done, suspension)
    case Finishing(p) => PendingOk(cfg, s.ws.futures, p)
    case Finished(o) => OutcomeOk(cfg, o)
  }

  /** Once a result is chosen, the rules that are still armed no longer matter. */
  function LiveWalk(s: Sys): WalkState {
    if s.phase.Finishing? || s.phase.Finished? then s.ws.(armed := []) else s.ws
  }

  ghost predicate Inv(cfg: Config, s: Sys) {
    WalkInv(cfg, LiveWalk(s), s.done) && PhaseOk(cfg, s)
  }

  // ---------------------------------------------------------------- settling

  ghost predicate SettleReady(cfg: Config, ws: WalkState, done: set<nat>) {
    && Numbered(ws.futures)
    && NamesOk(ws.futures, ws.namedFutures, ws.anon)
    && ResponsesOk(cfg, ws.namedFutures, ws.settled, ws.namedResponses, ws.namedTransports)
    && DoneOk(ws.futures, ws.settled, done)
  }

  /** Settling the futures from k on brings every response that has arrived into the named responses. */
  lemma {:induction false} SettleFromOk(cfg: Config, ws: WalkState, done: set<nat>, k: nat)
    requires SettleReady(cfg, ws, done) && k <= |ws.futures|
    requires forall j :: 0 <= j < k && j in done ==> j in ws.settled
    ensures
      var now := SettleFrom(cfg, ws, done, k);
      && now == ws.(settled := done, namedResponses := now.namedResponses, namedTransports := now.namedTransports)
      && SettleReady(cfg, now, done)
    decreases |ws.futures| - k
  {
    if k == |ws.futures| {
      assert ws.settled == done;
    } else if ws.futures[k].id in ws.settled || ws.futures[k].id !in done {
      SettleFromOk(cfg, ws, done, k + 1);
    } else {
      SettleOneOk(cfg, ws, done, ws.futures[k]);
      SettleFromOk(cfg, SettleOne(cfg, ws, ws.futures[k]), done, k + 1);
    }
  }

  lemma SettleOneOk(cfg: Config, ws: WalkState, done: set<nat>, f: Future)
    requires SettleReady(cfg, ws, done) && Known(ws.futures, f) && f.id !in ws.settled && f.id in done
    ensures SettleReady(cfg, SettleOne(cfg, ws, f), done)
  {
    OnlyName(ws.futures, ws.namedFutures, ws.anon, f);
    if f.tag != Untagged {
      ResponseAdded(cfg, ws.namedFutures, ws.settled, ws.namedResponses, ws.namedTransports, f);
    }
  }

  lemma OnlyName(futures: seq<Future>, named: map<Tag, Future>, anon: Option<Future>, f: Future)
    requires NamesOk(futures, named, anon) && Known(futures, f)
    ensures forall t :: t in named && named[t].id == f.id ==> t == f.tag
    ensures f.tag != Untagged ==> f.tag in named && named[f.tag] == f
  {
  }

  lemma ResponseAdded(cfg: Config, named: map<Tag, Future>, settled: set<nat>,
                      responses: map<Tag, Option<Msg>>, transports: map<Tag, Transport>, f: Future)
    requires ResponsesOk(cfg, named, settled, responses, transports)
    requires f.tag in named && named[f.tag] == f
    requires forall t :: t in named && named[t].id == f.id ==> t == f.tag
    ensures ResponsesOk(cfg, named, settled + {f.id}, responses[f.tag := AnswerOf(cfg, f)], transports[f.tag := f.query.transport])
  {
  }

  lemma SettleOk(cfg: Config, ws: WalkState, done: set<nat>)
    requires WalkInv(cfg, ws, done)
    ensures
      var now := Settle(cfg, ws, done);
      && now == ws.(settled := done, namedResponses := now.namedResponses, namedTransports := now.namedTransports)
      && WalkInv(cfg, now, done)
  {
    SettleFromOk(cfg, ws, done, 0);
  }

  // ---------------------------------------------------------------- what a rule sees

  /** The named futures a rule is bound to are all resolved. */
  ghost predicate TagsResolved(named: map<Tag, Future>, tags: seq<Tag>, done: set<nat>) {
    forall t :: t in tags && t in named ==> named[t].id in done
  }

  lemma {:induction false} PendingTagsSpec(named: map<Tag, Future>, tags: seq<Tag>, done: set<nat>)
    ensures forall f :: f in PendingTags(named, tags, done) <==> exists t :: t in tags && t in named && named[t] == f && f.id !in done
    ensures PendingTags(named, tags, done) == [] <==> TagsResolved(named, tags, done)
  {
    if tags != [] {
      PendingTagsSpec(named, tags[1..], done);
      assert tags == [tags[0]] + tags[1..];
    }
  }

  lemma PendingOfSpec(named: map<Tag, Future>, anon: Option<Future>, rule: Rule, done: set<nat>)
    ensures
      var pending := PendingOf(named, anon, rule, done);
      && (pending == [] <==> TagsResolved(named, rule.tags, done) && (rule.anonymous && anon.Some? ==> anon.value.id in done))
      && (forall t :: t in rule.tags && t in named ==> named[t] in pending || named[t].id in done)
      && (rule.anonymous && anon.Some? ==> anon.value in pending || anon.value.id in done)
      && (forall f :: f in pending ==> (f.id !in done && ((exists t :: t in rule.tags && t in named && named[t] == f) || (rule.anonymous && anon == Some(f)))))
  {
    PendingTagsSpec(named, rule.tags, done);
  }

  /** After settling, a rule whose responses are all in sees what the sequential interpreter sees. */
  lemma ViewIsSight(cfg: Config, rule: Rule, ws: WalkState, done: set<nat>, options: QueryOptions, anon: Option<Future>, shown: Option<Msg>)
    requires ResponsesOk(cfg, ws.namedFutures, ws.settled, ws.namedResponses, ws.namedTransports)
    requires TagsResolved(ws.namedFutures, rule.tags, done)
    requires rule.tags != [] ==> ws.settled == done
    requires rule.anonymous ==> shown == ViewOfOption(cfg, done, anon) && (anon.Some? ==> anon.value.id in done)
    ensures
      BoundView(rule, ws.namedResponses, shown)
      == Ref.Sight(cfg, rule, Ref.Env(options, EvalOfOption(anon), NamedEvals(ws.namedFutures)))
  {
    var env := Ref.Env(options, EvalOfOption(anon), NamedEvals(ws.namedFutures));
    forall t | t in rule.tags
      ensures (if t in ws.namedResponses then ws.namedResponses[t] else None) == Ref.ResultOf(cfg, Ref.Named(env, t))
    {
    }
    assert BoundView(rule, ws.namedResponses, shown).named == Ref.Sight(cfg, rule, env).named;
  }

  // ---------------------------------------------------------------- sweeping

  function OutcomeOfVerdict(cfg: Config, v: Verdict): Outcome {
    match v
    case Final(o) => o
    case Send(p) => Ref.ExchangeOf(cfg, p.rule, p.query)
  }

  /** A ready armed rule decides what the sequential interpreter decides in the state it was passed in. */
  lemma JudgeArmedOk(cfg: Config, ws: WalkState, done: set<nat>, a: Armed)
    requires a.index < |cfg.rules| && a.rule == cfg.rules[a.index] && RespondShape(a.rule)
    requires ResponsesOk(cfg, ws.namedFutures, done, ws.namedResponses, ws.namedTransports) && ws.settled == done
    requires Covered(ws.namedFutures, done, a) && ArmedReady(a, done)
    requires SourceFixed(a) || ws.anon.None?
    ensures
      var v := JudgeArmed(cfg, ws, done, a);
      && v.Some? == JudgeOf(cfg, ws.namedFutures, a).Some?
      && (v.Some? ==> OutcomeOfVerdict(cfg, v.value) == JudgeOf(cfg, ws.namedFutures, a).value)
      && (v.Some? && v.value.Send? ==> v.value.pending.future == None && v.value.pending.rule == a.index)
  {
    var shown := ViewOfOption(cfg, done, if a.rule.anonymous then a.anon else ws.anon);
    ViewIsSight(cfg, a.rule, ws, done, a.options, a.anon, shown);
  }

  ghost predicate EachArmedOk(cfg: Config, ws: WalkState, done: set<nat>) {
    forall a :: a in ws.armed ==>
      ArmedOk(cfg, ws.futures, ws.namedFutures, ws.index, done, a) && (SourceFixed(a) || ws.anon.None?)
  }

  function Without(armed: seq<Armed>, k: nat): seq<Armed>
    requires k < |armed|
  {
    armed[..k] + armed[k + 1..]
  }

  lemma WithoutMembers(armed: seq<Armed>, k: nat)
    requires k < |armed|
    ensures forall a :: a in armed <==> a in Without(armed, k) || a == armed[k]
  {
    assert armed == armed[..k] + [armed[k]] + armed[k + 1..];
  }

  /** A sweep either commits the verdict of a ready armed rule, or leaves exactly the rules that are not ready. */
  ghost predicate SweepResult(cfg: Config, ws: WalkState, done: set<nat>, swept: WalkState, v: Option<Verdict>) {
    && swept == ws.(armed := swept.armed)
    && (forall a :: a in swept.armed ==> a in ws.armed)
    && (Sorted(ws.armed) ==> Sorted(swept.armed))
    && (v.None? ==>
          && (forall a :: a in swept.armed ==> !ArmedReady(a, done))
          && (forall a :: a in ws.armed && a !in swept.armed ==> ArmedReady(a, done) && JudgeOf(cfg, ws.namedFutures, a).None?))
    && (v.Some? ==> exists a :: SweepWinner(cfg, ws, done, a, v.value))
  }

  /** a is ready and commits v, and no earlier armed rule could have committed. */
  ghost predicate SweepWinner(cfg: Config, ws: WalkState, done: set<nat>, a: Armed, v: Verdict) {
    && a in ws.armed && ArmedReady(a, done)
    && JudgeArmed(cfg, ws, done, a) == Some(v)
    && JudgeOf(cfg, ws.namedFutures, a) == Some(OutcomeOfVerdict(cfg, v))
    && (Sorted(ws.armed) ==>
          forall b :: b in ws.armed && b.index < a.index && ArmedReady(b, done) ==> JudgeOf(cfg, ws.namedFutures, b).None?)
  }

  lemma {:induction false} SweepFromOk(cfg: Config, ws: WalkState, done: set<nat>, k: nat)
    requires RespondBinding(cfg.rules) && EachArmedOk(cfg, ws, done)
    requires ResponsesOk(cfg, ws.namedFutures, done, ws.namedResponses, ws.namedTransports) && ws.settled == done
    requires forall j :: 0 <= j < k && j < |ws.armed| ==> !ArmedReady(ws.armed[j], done)
    ensures
      var (swept, v) := SweepFrom(cfg, ws, done, k);
      SweepResult(cfg, ws, done, swept, v)
    decreases |ws.armed| - k
  {
    if k >= |ws.armed| {
    } else if !ArmedReady(ws.armed[k], done) {
      SweepFromOk(cfg, ws, done, k + 1);
    } else {
      SweepReadyOk(cfg, ws, done, k);
    }
  }

  lemma SweepReadyOk(cfg: Config, ws: WalkState, done: set<nat>, k: nat)
    requires RespondBinding(cfg.rules) && EachArmedOk(cfg, ws, done) && k < |ws.armed| && ArmedReady(ws.armed[k], done)
    requires ResponsesOk(cfg, ws.namedFutures, done, ws.namedResponses, ws.namedTransports) && ws.settled == done
    requires forall j :: 0 <= j < k ==> !ArmedReady(ws.armed[j], done)
    ensures
      var (swept, v) := SweepFrom(cfg, ws, done, k);
      SweepResult(cfg, ws, done, swept, v)
    decreases |ws.armed| - k, 0
  {
    var rest := ws.(armed := Without(ws.armed, k));
    WithoutMembers(ws.armed, k);
    JudgeKnownArmed(cfg, ws, done, ws.armed[k]);
    var verdict := JudgeArmed(cfg, ws, done, ws.armed[k]);
    if verdict.Some? {
      assert SweepWinner(cfg, ws, done, ws.armed[k], verdict.value) by {
        BeforeSorted(ws.armed, k);
      }
    } else {
      SweepFromOk(cfg, rest, done, k);
      SweepMore(cfg, ws, rest, done, ws.armed[k], SweepFrom(cfg, rest, done, k).0, SweepFrom(cfg, rest, done, k).1);
    }
  }

  lemma BeforeSorted(armed: seq<Armed>, k: nat)
    requires k < |armed|
    ensures Sorted(armed) ==> forall b :: b in armed && b.index < armed[k].index ==> exists j :: 0 <= j < k && armed[j] == b
  {
  }

  lemma JudgeKnownArmed(cfg: Config, ws: WalkState, done: set<nat>, a: Armed)
    requires RespondBinding(cfg.rules) && EachArmedOk(cfg, ws, done) && a in ws.armed && ArmedReady(a, done)
    requires ResponsesOk(cfg, ws.namedFutures, done, ws.namedResponses, ws.namedTransports) && ws.settled == done
    ensures JudgeArmed(cfg, ws, done, a).Some? ==>
      JudgeOf(cfg, ws.namedFutures, a) == Some(OutcomeOfVerdict(cfg, JudgeArmed(cfg, ws, done, a).value))
    ensures JudgeArmed(cfg, ws, done, a).None? ==> JudgeOf(cfg, ws.namedFutures, a).None?
  {
    assert ArmedOk(cfg, ws.futures, ws.namedFutures, ws.index, done, a);
    JudgeArmedOk(cfg, ws, done, a);
  }

  /** Adding a ready rule that decides nothing to a sweep changes nothing. */
  lemma SweepMore(cfg: Config, ws: WalkState, rest: WalkState, done: set<nat>, extra: Armed, swept: WalkState, v: Option<Verdict>)
    requires rest == ws.(armed := rest.armed) && SweepResult(cfg, rest, done, swept, v)
    requires forall a :: a in ws.armed <==> a in rest.armed || a == extra
    requires Sorted(ws.armed) ==> Sorted(rest.armed)
    requires ArmedReady(extra, done) && JudgeOf(cfg, ws.namedFutures, extra).None?
    ensures SweepResult(cfg, ws, done, swept, v)
  {
    if v.Some? {
      var b :| SweepWinner(cfg, rest, done, b, v.value);
      assert SweepWinner(cfg, ws, done, b, v.value);
    }
  }
}
