/**
 The resumable DNS rule walk as pure steps on a walk state.

 `Settle`, `Sweep` and `RuleStep` follow the router's loops one to one. Which queries have completed is an
 argument (`done`), so a step can be taken under any interleaving with the servers.
 */
module RuleWalk {
  import opened Wrappers
  import opened DnsTypes

  /** A launched query. Its number is its position in the launch order. */
  datatype Future = Future(id: nat, rule: nat, tag: Tag, terminal: bool, query: Query)

  /** A race rule that was passed while some of its responses were pending. */
  datatype Armed = Armed(index: nat, rule: Rule, pending: seq<Future>, anon: Option<Future>, options: QueryOptions)

  datatype WalkState = WalkState(
    index: nat,
    options: QueryOptions,
    anon: Option<Future>,
    namedFutures: map<Tag, Future>,
    namedResponses: map<Tag, Option<Msg>>,
    namedTransports: map<Tag, Transport>,
    futures: seq<Future>,
    settled: set<nat>,
    armed: seq<Armed>,
    terminal: Option<Future>)

  datatype Pending = Pending(rule: nat, query: Query, future: Option<Future>)

  datatype Suspension = Await(future: Future) | Drain | Ready(pending: Pending)

  datatype Verdict = Final(outcome: Outcome) | Send(pending: Pending)

  datatype StepResult =
    | Continue(state: WalkState)
    | Suspend(state: WalkState, suspension: Suspension)
    | Commit(state: WalkState, outcome: Outcome)

  function InitialWalk(cfg: Config): WalkState {
    WalkState(0, cfg.initial, None, map[], map[], map[], [], {}, [], None)
  }

  function AnswerOf(cfg: Config, f: Future): Option<Msg> {
    cfg.answer(f.rule, f.query)
  }

  /** The response of a future as far as it is known. */
  function ViewOf(cfg: Config, done: set<nat>, f: Future): Option<Msg> {
    if f.id in done then AnswerOf(cfg, f) else None
  }

  function ViewOfOption(cfg: Config, done: set<nat>, f: Option<Future>): Option<Msg> {
    if f.Some? then ViewOf(cfg, done, f.value) else None
  }

  function SettleOne(cfg: Config, ws: WalkState, f: Future): WalkState {
    var marked := ws.(settled := ws.settled + {f.id});
    if f.tag == Untagged then marked
    else marked.(namedResponses := ws.namedResponses[f.tag := AnswerOf(cfg, f)],
                 namedTransports := ws.namedTransports[f.tag := f.query.transport])
  }

  function SettleFrom(cfg: Config, ws: WalkState, done: set<nat>, k: nat): WalkState
    requires k <= |ws.futures|
    decreases |ws.futures| - k
  {
    if k == |ws.futures| then ws
    else if ws.futures[k].id in ws.settled || ws.futures[k].id !in done then SettleFrom(cfg, ws, done, k + 1)
    else SettleFrom(cfg, SettleOne(cfg, ws, ws.futures[k]), done, k + 1)
  }

  /** Moves the responses that have arrived into the named responses. */
  function Settle(cfg: Config, ws: WalkState, done: set<nat>): WalkState {
    SettleFrom(cfg, ws, done, 0)
  }

  predicate ArmedReady(a: Armed, done: set<nat>) {
    forall f <- a.pending :: f.id in done
  }

  function RespondOutcome(rule: nat, response: Option<Msg>, transport: Option<Transport>): Outcome {
    if response.None? || transport.None? then MissingResponse(rule) else Answered(rule, response.value, transport.value)
  }

  function NamedResponse(ws: WalkState, tag: Tag): Option<Msg> {
    if tag in ws.namedResponses then ws.namedResponses[tag] else None
  }

  function NamedTransport(ws: WalkState, tag: Tag): Option<Transport> {
    if tag in ws.namedTransports then Some(ws.namedTransports[tag]) else None
  }

  function TransportOf(f: Option<Future>): Option<Transport> {
    if f.Some? then Some(f.value.query.transport) else None
  }

  /** What an armed rule decides once its responses are in. None: it does not match, or its route is skipped. */
  function JudgeArmed(cfg: Config, ws: WalkState, done: set<nat>, a: Armed): Option<Verdict> {
    var anonView := ViewOfOption(cfg, done, if a.rule.anonymous then a.anon else ws.anon);
    if !cfg.matches(a.index, BoundView(a.rule, ws.namedResponses, anonView)) then None
    else
      match a.rule.action
      case Respond =>
        var tag := a.rule.respondTag;
        if tag != Untagged then
          Some(Final(RespondOutcome(a.index, NamedResponse(ws, tag), NamedTransport(ws, tag))))
        else
          var source := if a.anon.Some? then a.anon else ws.anon;
          Some(Final(RespondOutcome(a.index, ViewOfOption(cfg, done, source), TransportOf(source))))
      case Route(server, _, opts) =>
        var query := ResolveRoute(cfg, server, opts, a.options);
        if query.None? then None else Some(Send(Pending(a.index, query.value, None)))
      case Reject(how) =>
        (match how
         case RejectDefault => Some(Final(Refused(a.index)))
         case RejectDrop => Some(Final(Dropped(a.index)))
         case RejectOther => None)
      case Predefined => Some(Final(Canned(a.index)))
      case SetOptions(_) => None
      case Evaluate(_, _, _, _) => None
  }

  /** Judges the armed rules that are ready, from position k on. Every judged rule is disarmed. */
  function SweepFrom(cfg: Config, ws: WalkState, done: set<nat>, k: nat): (WalkState, Option<Verdict>)
    decreases |ws.armed| - k
  {
    if k >= |ws.armed| then (ws, None)
    else if !ArmedReady(ws.armed[k], done) then SweepFrom(cfg, ws, done, k + 1)
    else
      var rest := ws.(armed := ws.armed[..k] + ws.armed[k + 1..]);
      var verdict := JudgeArmed(cfg, ws, done, ws.armed[k]);
      if verdict.Some? then (rest, verdict) else SweepFrom(cfg, rest, done, k)
  }

  function Sweep(cfg: Config, ws: WalkState, done: set<nat>): (WalkState, Option<Verdict>) {
    SweepFrom(cfg, ws, done, 0)
  }

  function Launch(ws: WalkState, rule: nat, tag: Tag, terminal: bool, query: Query): (WalkState, Future) {
    var f := Future(|ws.futures|, rule, tag, terminal, query);
    (ws.(futures := ws.futures + [f]), f)
  }

  function Unresolved(f: Option<Future>, done: set<nat>): seq<Future> {
    if f.Some? && f.value.id !in done then [f.value] else []
  }

  function NamedFuture(named: map<Tag, Future>, tag: Tag): Option<Future> {
    if tag in named then Some(named[tag]) else None
  }

  /** The pending futures a rule is bound to by tag, in the order of its tags. */
  function PendingTags(named: map<Tag, Future>, tags: seq<Tag>, done: set<nat>): seq<Future> {
    if tags == [] then []
    else Unresolved(NamedFuture(named, tags[0]), done) + PendingTags(named, tags[1..], done)
  }

  function PendingOf(named: map<Tag, Future>, anon: Option<Future>, rule: Rule, done: set<nat>): seq<Future> {
    PendingTags(named, rule.tags, done) + if rule.anonymous then Unresolved(anon, done) else []
  }

  function Next(ws: WalkState): WalkState {
    ws.(index := ws.index + 1)
  }

  /** The entry a race rule is armed with. */
  function EntryOf(cfg: Config, ws: WalkState, done: set<nat>): Armed
    requires ws.index < |cfg.rules|
  {
    var rule := cfg.rules[ws.index];
    Armed(ws.index, rule, PendingOf(ws.namedFutures, ws.anon, rule, done), if rule.anonymous then ws.anon else None, ws.options)
  }

  /** A race rule after settling: arm it, and judge at once when nothing is pending. */
  function RaceAction(cfg: Config, ws: WalkState, done: set<nat>): StepResult
    requires ws.index < |cfg.rules|
  {
    var entry := EntryOf(cfg, ws, done);
    var armed := ws.(armed := ws.armed + [entry]);
    if entry.pending != [] then Continue(Next(armed))
    else
      var (swept, verdict) := Sweep(cfg, armed, done);
      match verdict
      case None => Continue(Next(swept))
      case Some(Send(p)) => Suspend(swept.(armed := []), Ready(p))
      case Some(Final(o)) => Commit(swept, o)
  }

  /** The action of a rule that matched. */
  function ActionStep(cfg: Config, ws: WalkState, done: set<nat>): StepResult
    requires ws.index < |cfg.rules|
  {
    var rule := cfg.rules[ws.index];
    match rule.action
    case SetOptions(opts) => Continue(Next(ws.(options := ApplyOptions(ws.options, opts))))
    case Evaluate(server, tag, speculative, opts) =>
      if server !in cfg.transports then
        Continue(Next(if tag == Untagged then ws.(anon := None) else ws))
      else if !speculative && |ws.armed| > 0 then Suspend(ws, Drain)
      else
        var query := MakeQuery(cfg, cfg.transports[server], ApplyOptions(ws.options, opts));
        var (launched, f) := Launch(ws, ws.index, tag, false, query);
        Continue(Next(if tag == Untagged then launched.(anon := Some(f))
                      else launched.(namedFutures := launched.namedFutures[tag := f])))
    case Respond =>
      if |ws.armed| > 0 then Suspend(ws, Drain)
      else if rule.respondTag != Untagged then
        Commit(ws, RespondOutcome(ws.index, NamedResponse(ws, rule.respondTag), NamedTransport(ws, rule.respondTag)))
      else if !rule.Binds() && Unresolved(ws.anon, done) != [] then Suspend(ws, Await(ws.anon.value))
      else Commit(ws, RespondOutcome(ws.index, ViewOfOption(cfg, done, ws.anon), TransportOf(ws.anon)))
    case Route(server, speculative, opts) =>
      var query := ResolveRoute(cfg, server, opts, ws.options);
      if query.None? then Continue(Next(ws))
      else if |ws.armed| > 0 then
        if speculative && ws.terminal.None? then
          var (launched, f) := Launch(ws, ws.index, Untagged, true, query.value);
          Suspend(launched.(terminal := Some(f)), Drain)
        else Suspend(ws, Drain)
      else if ws.terminal.Some? && ws.terminal.value.rule == ws.index then
        Suspend(ws, Ready(Pending(ws.index, ws.terminal.value.query, ws.terminal)))
      else Suspend(ws, Ready(Pending(ws.index, query.value, None)))
    case Reject(how) =>
      if |ws.armed| > 0 then Suspend(ws, Drain)
      else
        (match how
         case RejectDefault => Commit(ws, Refused(ws.index))
         case RejectDrop => Commit(ws, Dropped(ws.index))
         case RejectOther => Continue(Next(ws)))
    case Predefined =>
      if |ws.armed| > 0 then Suspend(ws, Drain) else Commit(ws, Canned(ws.index))
  }

  /** A rule that is judged in order, after settling: wait for its responses, match, act. */
  function OrderedAction(cfg: Config, ws: WalkState, done: set<nat>): StepResult
    requires ws.index < |cfg.rules|
  {
    var rule := cfg.rules[ws.index];
    var pending := PendingOf(ws.namedFutures, ws.anon, rule, done);
    if rule.Binds() && pending != [] then Suspend(ws, Await(pending[0]))
    else if !cfg.matches(ws.index, BoundView(rule, ws.namedResponses, ViewOfOption(cfg, done, ws.anon))) then
      Continue(Next(ws))
    else ActionStep(cfg, ws, done)
  }

  /** One turn of the walk's loop, including the turn past the last rule. */
  function RuleStep(cfg: Config, ws: WalkState, done: set<nat>): StepResult {
    if ws.index < |cfg.rules| then
      var rule := cfg.rules[ws.index];
      var now := if rule.Binds() then Settle(cfg, ws, done) else ws;
      SettleKeeps(cfg, ws, done, 0);
      if rule.Races() then RaceAction(cfg, now, done) else OrderedAction(cfg, now, done)
    else if |ws.armed| > 0 then Suspend(ws, Drain)
    else Suspend(ws, Ready(Pending(|cfg.rules|, MakeQuery(cfg, cfg.fallback, ws.options), None)))
  }

  /** Settling changes only the settled marks and the named responses. */
  lemma SettleKeeps(cfg: Config, ws: WalkState, done: set<nat>, k: nat)
    requires k <= |ws.futures|
    ensures
      var now := SettleFrom(cfg, ws, done, k);
      now == ws.(settled := now.settled, namedResponses := now.namedResponses, namedTransports := now.namedTransports)
    decreases |ws.futures| - k
  {
  }
}
