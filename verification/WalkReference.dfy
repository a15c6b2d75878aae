/**
 What the rule list means, without futures, suspension or arming.

 `Sequential` interprets the list one rule after the other, finishing every evaluate on the spot, as if every race
 rule missed. `PointAt` is the state of that interpreter at each rule. `Possible` says which results an exchange can
 end with: the sequential one when no race rule hits, otherwise the result of a race rule that can win.
 */
module WalkReference {
  import opened Wrappers
  import opened DnsTypes

  /** A finished evaluation: the rule that asked, and what it asked. */
  datatype Eval = Eval(rule: nat, query: Query)

  datatype Env = Env(options: QueryOptions, anon: Option<Eval>, named: map<Tag, Eval>)

  function InitialEnv(cfg: Config): Env {
    Env(cfg.initial, None, map[])
  }

  function ResultOf(cfg: Config, e: Option<Eval>): Option<Msg> {
    if e.Some? then cfg.answer(e.value.rule, e.value.query) else None
  }

  function Named(env: Env, tag: Tag): Option<Eval> {
    if tag in env.named then Some(env.named[tag]) else None
  }

  /** The finished responses a rule sees. */
  function Sight(cfg: Config, rule: Rule, env: Env): View {
    View(map t | t in rule.tags :: ResultOf(cfg, Named(env, t)),
         if rule.anonymous then ResultOf(cfg, env.anon) else None)
  }

  predicate Matches(cfg: Config, i: nat, env: Env)
    requires i < |cfg.rules|
  {
    cfg.matches(i, Sight(cfg, cfg.rules[i], env))
  }

  function RespondWith(cfg: Config, i: nat, e: Option<Eval>): Outcome {
    var r := ResultOf(cfg, e);
    if r.None? then MissingResponse(i) else Answered(i, r.value, e.value.query.transport)
  }

  function ExchangeOf(cfg: Config, i: nat, query: Query): Outcome {
    Exchanged(i, query, cfg.answer(i, query))
  }

  /** The result of a final action, or None when rule matching goes on past it. */
  function Conclude(cfg: Config, i: nat, env: Env): Option<Outcome>
    requires i < |cfg.rules|
  {
    var rule := cfg.rules[i];
    match rule.action
    case Respond =>
      Some(RespondWith(cfg, i, if rule.respondTag != Untagged then Named(env, rule.respondTag) else env.anon))
    case Route(server, _, opts) =>
      var query := ResolveRoute(cfg, server, opts, env.options);
      if query.None? then None else Some(ExchangeOf(cfg, i, query.value))
    case Reject(how) =>
      (match how
       case RejectDefault => Some(Refused(i))
       case RejectDrop => Some(Dropped(i))
       case RejectOther => None)
    case Predefined => Some(Canned(i))
    case SetOptions(_) => None
    case Evaluate(_, _, _, _) => None
  }

  /** The result rule i commits in env, if it matches and its action is final. */
  function Judge(cfg: Config, i: nat, env: Env): Option<Outcome>
    requires i < |cfg.rules|
  {
    if Matches(cfg, i, env) then Conclude(cfg, i, env) else None
  }

  /** The effect of a matched options or evaluate action on the rules after it. */
  function Effect(cfg: Config, i: nat, env: Env): Env
    requires i < |cfg.rules|
  {
    match cfg.rules[i].action
    case SetOptions(opts) => env.(options := ApplyOptions(env.options, opts))
    case Evaluate(server, tag, _, opts) =>
      if server !in cfg.transports then (if tag == Untagged then env.(anon := None) else env)
      else
        var e := Eval(i, MakeQuery(cfg, cfg.transports[server], ApplyOptions(env.options, opts)));
        if tag == Untagged then env.(anon := Some(e)) else env.(named := env.named[tag := e])
    case Respond => env
    case Route(_, _, _) => env
    case Reject(_) => env
    case Predefined => env
  }

  /** A matched rule that may not act before the race rules in front of it are decided. */
  predicate Holds(cfg: Config, i: nat, env: Env)
    requires i < |cfg.rules|
  {
    match cfg.rules[i].action
    case SetOptions(_) => false
    case Evaluate(server, _, speculative, _) => server in cfg.transports && !speculative
    case Route(server, _, opts) => ResolveRoute(cfg, server, opts, env.options).Some?
    case Respond => true
    case Reject(_) => true
    case Predefined => true
  }

  function FallbackOutcome(cfg: Config, env: Env): Outcome {
    ExchangeOf(cfg, |cfg.rules|, MakeQuery(cfg, cfg.fallback, env.options))
  }

  /** The plain interpreter: one rule after the other, one query at a time. Race rules are passed over. */
  function Sequential(cfg: Config, i: nat, env: Env): Outcome
    requires i <= |cfg.rules|
    decreases |cfg.rules| - i
  {
    if i == |cfg.rules| then FallbackOutcome(cfg, env)
    else if cfg.rules[i].Races() || !Matches(cfg, i, env) then Sequential(cfg, i + 1, env)
    else if Conclude(cfg, i, env).Some? then Conclude(cfg, i, env).value
    else Sequential(cfg, i + 1, Effect(cfg, i, env))
  }

  /** The queries, named by the rule that sends them, whose responses a rule matches on. */
  function Bound(rule: Rule, env: Env): set<nat> {
    (set t | t in rule.tags && t in env.named :: env.named[t].rule)
    + if rule.anonymous && env.anon.Some? then {env.anon.value.rule} else {}
  }

  /**
   The interpreter standing at a rule. `waited` holds the queries that are answered in every exchange that gets
   here, `joined` the queries of the race rules passed so far, and `ended` says that an earlier rule concluded.
   */
  datatype Point = Point(env: Env, waited: set<nat>, joined: set<nat>, ended: bool)

  function Pass(cfg: Config, i: nat, p: Point): Point
    requires i < |cfg.rules|
  {
    var bound := Bound(cfg.rules[i], p.env);
    if p.ended then p
    else if cfg.rules[i].Races() then p.(joined := p.joined + bound)
    else if !Matches(cfg, i, p.env) then p.(waited := p.waited + bound)
    else if Conclude(cfg, i, p.env).Some? then p.(ended := true)
    else p.(env := Effect(cfg, i, p.env),
            waited := p.waited + bound + if Holds(cfg, i, p.env) then p.joined else {})
  }

  function PointAt(cfg: Config, i: nat): Point
    requires i <= |cfg.rules|
  {
    if i == 0 then Point(InitialEnv(cfg), {}, {}, false) else Pass(cfg, i - 1, PointAt(cfg, i - 1))
  }

  function EnvAt(cfg: Config, i: nat): Env
    requires i <= |cfg.rules|
  {
    PointAt(cfg, i).env
  }

  function BoundAt(cfg: Config, i: nat): set<nat>
    requires i < |cfg.rules|
  {
    Bound(cfg.rules[i], EnvAt(cfg, i))
  }

  /** A race rule that the interpreter reaches and that would commit. */
  predicate Hit(cfg: Config, i: nat) {
    i < |cfg.rules| && cfg.rules[i].Races() && !PointAt(cfg, i).ended && Judge(cfg, i, EnvAt(cfg, i)).Some?
  }

  /** A hit wins unless the answers it needs are always enough for an earlier hit as well. */
  predicate Winnable(cfg: Config, i: nat) {
    Hit(cfg, i) && forall k :: 0 <= k < i && Hit(cfg, k) ==> !(BoundAt(cfg, k) <= PointAt(cfg, i).waited + BoundAt(cfg, i))
  }

  predicate WinsWith(cfg: Config, i: nat, o: Outcome) {
    Winnable(cfg, i) && Judge(cfg, i, EnvAt(cfg, i)) == Some(o)
  }

  ghost predicate NoHit(cfg: Config) {
    forall i :: 0 <= i < |cfg.rules| ==> !Hit(cfg, i)
  }

  /** The results an exchange can end with. */
  ghost predicate Possible(cfg: Config, o: Outcome) {
    || (exists i :: 0 <= i < |cfg.rules| && WinsWith(cfg, i, o))
    || (NoHit(cfg) && o == Sequential(cfg, 0, InitialEnv(cfg)))
  }

  predicate NoRace(cfg: Config) {
    forall r <- cfg.rules :: !r.Races()
  }

  /** What the interpreter returns does not depend on where along its way one asks. */
  lemma {:induction false} SequentialAt(cfg: Config, i: nat)
    requires i <= |cfg.rules| && !PointAt(cfg, i).ended
    ensures Sequential(cfg, i, EnvAt(cfg, i)) == Sequential(cfg, 0, InitialEnv(cfg))
  {
    if i > 0 {
      SequentialAt(cfg, i - 1);
    }
  }

  lemma {:induction false} EndedStays(cfg: Config, i: nat, j: nat)
    requires i <= j <= |cfg.rules| && PointAt(cfg, i).ended
    ensures PointAt(cfg, j).ended
    decreases j - i
  {
    if i < j {
      EndedStays(cfg, i, j - 1);
    }
  }

  /** The first hit can always win, so an exchange with a hit never ends with the sequential result by default. */
  lemma {:induction false} FirstHitWins(cfg: Config, i: nat)
    requires Hit(cfg, i)
    ensures exists j :: 0 <= j <= i && Winnable(cfg, j)
  {
    if !Winnable(cfg, i) {
      var k :| 0 <= k < i && Hit(cfg, k);
      FirstHitWins(cfg, k);
    }
  }
}
