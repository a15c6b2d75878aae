/** The check a rule list has to pass before the walk may run it. */
module RuleValidator {
  import opened Wrappers
  import opened DnsTypes
  import opened RuleOptions
  import Safety = WalkSafety
  import System = WalkSystem
  import Steps = RuleWalk
  import Exchanges = WalkRuns
  import Flags = WalkSpeculation

  datatype Flaw =
    | FieldsNeedResponse
    | MissingRuleSet(set_: Tag)
    | AddressOnlyRuleSet(set_: Tag)
    | AcceptEmptyRemoved
    | LogicalRespondTag
    | NoAnonymousEvaluate
    | UndefinedTag(tag: Tag)
    | DuplicateTag(tag: Tag)

  /** What a rule reads: the untagged response, and tagged responses. */
  datatype Use = Use(anonymous: bool, tags: seq<Tag>)

  datatype Warning =
    | SpeculativeWithoutRace(rule: nat)
    | Overwritten(earlier: nat, later: nat)
    | NeverReferenced(tag: Tag)

  // ---------------------------------------------------------------- one rule

  function RuleSetFlaw(sets: RuleSets, tags: seq<Tag>): Option<Flaw> {
    if tags == [] then None
    else if tags[0] !in sets then Some(MissingRuleSet(tags[0]))
    else if sets[tags[0]].ipCIDR && !sets[tags[0]].nonIPCIDR then Some(AddressOnlyRuleSet(tags[0]))
    else RuleSetFlaw(sets, tags[1..])
  }

  function DefaultUse(sets: RuleSets, cond: Condition, act: RawAction): Result<Use, Flaw> {
    var enabled := !cond.response.Unset?;
    if (cond.responseFields || cond.ipCIDR || cond.ipIsPrivate || cond.ipAcceptAny) && !enabled then Err(FieldsNeedResponse)
    else
      var flaw := if enabled then None else RuleSetFlaw(sets, cond.ruleSets);
      if flaw.Some? then Err(flaw.value)
      else if cond.acceptEmpty then Err(AcceptEmptyRemoved)
      else Ok(Use(cond.response.Anonymous? || (act.action.Respond? && !cond.response.Named?),
                  if cond.response.Named? then [Tag(cond.response.name)] else []))
  }

  function TreeUse(sets: RuleSets, rule: RawRule): Result<Use, Flaw> {
    match rule
    case Default(cond, act) => DefaultUse(sets, cond, act)
    case Logical(rules, act) =>
      match TreesUse(sets, rules) {
        case Err(e) => Err(e)
        case Ok(use) =>
          if !act.action.Respond? then Ok(use)
          else if |use.tags| > 0 then Err(LogicalRespondTag)
          else Ok(use.(anonymous := true))
      }
  }

  /** The uses of a rule's sub-rules together, from left to right. */
  function TreesUse(sets: RuleSets, rules: seq<RawRule>): Result<Use, Flaw> {
    if rules == [] then Ok(Use(false, []))
    else
      match TreeUse(sets, rules[0]) {
        case Err(e) => Err(e)
        case Ok(first) =>
          match TreesUse(sets, rules[1..]) {
            case Err(e) => Err(e)
            case Ok(rest) => Ok(Use(first.anonymous || rest.anonymous, first.tags + rest.tags))
          }
      }
  }

  /** The tags a rule reads are the tags it is compiled to bind, and it reads the untagged response if it binds it. */
  lemma {:induction false} UseIsBinding(sets: RuleSets, rule: RawRule)
    requires TreeUse(sets, rule).Ok?
    ensures forall t :: t in TreeUse(sets, rule).value.tags <==> t in BoundTags(rule)
    ensures Untagged !in TreeUse(sets, rule).value.tags
    ensures BindsAnonymous(rule) ==> TreeUse(sets, rule).value.anonymous
  {
    match rule
    case Default(_, _) =>
    case Logical(rules, _) => UsesAreBindings(sets, rules);
  }

  lemma {:induction false} UsesAreBindings(sets: RuleSets, rules: seq<RawRule>)
    requires TreesUse(sets, rules).Ok?
    ensures forall t :: t in TreesUse(sets, rules).value.tags <==> t in AllBoundTags(rules)
    ensures Untagged !in TreesUse(sets, rules).value.tags
    ensures (exists r <- rules :: BindsAnonymous(r)) ==> TreesUse(sets, rules).value.anonymous
  {
    if rules != [] {
      UseIsBinding(sets, rules[0]);
      UsesAreBindings(sets, rules[1..]);
    }
  }

  // ---------------------------------------------------------------- the list

  /** Rule i reads only what earlier rules provide, and provides a tag of its own. */
  ghost predicate RuleAccepted(sets: RuleSets, rules: seq<RawRule>, i: nat)
    requires i < |rules|
  {
    && TreeUse(sets, rules[i]).Ok?
    && var use := TreeUse(sets, rules[i]).value;
       && (use.anonymous ==> exists j :: 0 <= j < i && IsEvaluate(rules[j], Untagged))
       && (forall t :: t in use.tags ==> exists j :: 0 <= j < i && IsEvaluate(rules[j], t))
       && (forall t :: t != Untagged && IsEvaluate(rules[i], t) ==> forall j :: 0 <= j < i ==> !IsEvaluate(rules[j], t))
  }

  ghost predicate Accepted(sets: RuleSets, rules: seq<RawRule>) {
    forall i :: 0 <= i < |rules| ==> RuleAccepted(sets, rules, i)
  }

  ghost predicate Reads(sets: RuleSets, rule: RawRule, tag: Tag) {
    TreeUse(sets, rule).Ok? && tag in TreeUse(sets, rule).value.tags
  }

  ghost predicate ReadsAnonymous(sets: RuleSets, rule: RawRule) {
    TreeUse(sets, rule).Ok? && TreeUse(sets, rule).value.anonymous
  }

  /** No `race` rule among the first n rules. */
  ghost predicate NoRaceFlag(rules: seq<RawRule>, n: nat)
    requires n <= |rules|
  {
    forall j :: 0 <= j < n ==> !rules[j].act.race
  }

  /** The untagged response of rule i is replaced by rule j before any rule reads it. */
  ghost predicate Replaced(sets: RuleSets, rules: seq<RawRule>, i: int, j: int) {
    && 0 <= i < j < |rules| && IsEvaluate(rules[i], Untagged) && IsEvaluate(rules[j], Untagged)
    && forall k :: i < k <= j ==> !ReadsAnonymous(sets, rules[k]) && (k < j ==> !IsEvaluate(rules[k], Untagged))
  }

  ghost predicate Unread(sets: RuleSets, rules: seq<RawRule>, tag: Tag) {
    && tag != Untagged && (exists i :: 0 <= i < |rules| && IsEvaluate(rules[i], tag))
    && forall i :: 0 <= i < |rules| ==> !Reads(sets, rules[i], tag)
  }

  /** Which warnings the list deserves. */
  ghost predicate Deserved(sets: RuleSets, rules: seq<RawRule>, w: Warning) {
    match w
    case SpeculativeWithoutRace(i) => i < |rules| && IsSpeculative(rules[i]) && NoRaceFlag(rules, i)
    case Overwritten(i, j) => Replaced(sets, rules, i, j)
    case NeverReferenced(tag) => Unread(sets, rules, tag)
  }

  // ---------------------------------------------------------------- the loop and what it knows after n rules

  ghost predicate RaceSeen(rules: seq<RawRule>, n: nat, seen: bool)
    requires n <= |rules|
  {
    seen <==> !NoRaceFlag(rules, n)
  }

  ghost predicate TagsSeen(rules: seq<RawRule>, n: nat, defined: seq<Tag>)
    requires n <= |rules|
  {
    forall t :: t in defined <==> t != Untagged && exists j :: 0 <= j < n && IsEvaluate(rules[j], t)
  }

  /** `last` is the last untagged evaluate rule, -1 if there is none. */
  ghost predicate LastSeen(rules: seq<RawRule>, n: nat, last: int)
    requires n <= |rules|
  {
    && -1 <= last < n
    && (last >= 0 ==> IsEvaluate(rules[last], Untagged))
    && forall j :: last < j < n ==> !IsEvaluate(rules[j], Untagged)
  }

  ghost predicate ReadSeen(sets: RuleSets, rules: seq<RawRule>, n: nat, last: int, read: bool)
    requires n <= |rules|
  {
    last >= 0 ==> (read <==> exists k :: last < k < n && ReadsAnonymous(sets, rules[k]))
  }

  ghost predicate ReferencesSeen(sets: RuleSets, rules: seq<RawRule>, n: nat, referenced: set<Tag>)
    requires n <= |rules|
  {
    forall t :: t in referenced <==> exists j :: 0 <= j < n && Reads(sets, rules[j], t)
  }

  ghost function RuleOfWarning(w: Warning): nat {
    match w
    case SpeculativeWithoutRace(i) => i
    case Overwritten(_, j) => j
    case NeverReferenced(_) => 0
  }

  ghost predicate WarningsSeen(sets: RuleSets, rules: seq<RawRule>, n: nat, warnings: seq<Warning>)
    requires n <= |rules|
  {
    forall w :: w in warnings <==> !w.NeverReferenced? && Deserved(sets, rules, w) && RuleOfWarning(w) < n
  }

  /** The first tag that no earlier rule defines, if any. */
  method FirstUndefined(defined: seq<Tag>, tags: seq<Tag>) returns (missing: Option<Tag>)
    ensures missing.None? ==> forall t :: t in tags ==> t in defined
    ensures missing.Some? ==> missing.value in tags && missing.value !in defined
  {
    for k := 0 to |tags|
      invariant forall j :: 0 <= j < k ==> tags[j] in defined
    {
      if tags[k] !in defined {
        return Some(tags[k]);
      }
    }
    return None;
  }

  /** The warnings rule i adds. */
  method WarnAt(sets: RuleSets, rules: seq<RawRule>, i: nat, seenRace: bool, last: int, read: bool, warnings: seq<Warning>)
    returns (more: seq<Warning>)
    requires i < |rules| && RaceSeen(rules, i, seenRace) && LastSeen(rules, i, last) && ReadSeen(sets, rules, i + 1, last, read)
    requires WarningsSeen(sets, rules, i, warnings)
    ensures WarningsSeen(sets, rules, i + 1, more)
  {
    more := warnings;
    if IsSpeculative(rules[i]) && !seenRace {
      more := more + [SpeculativeWithoutRace(i)];
    }
    if IsEvaluate(rules[i], Untagged) && last >= 0 && !read {
      more := more + [Overwritten(last, i)];
    }
    WarningsAt(sets, rules, i, seenRace, last, read);
  }

  /** Which warnings are about rule i. */
  lemma WarningsAt(sets: RuleSets, rules: seq<RawRule>, i: nat, seenRace: bool, last: int, read: bool)
    requires i < |rules| && RaceSeen(rules, i, seenRace) && LastSeen(rules, i, last) && ReadSeen(sets, rules, i + 1, last, read)
    ensures Deserved(sets, rules, SpeculativeWithoutRace(i)) <==> IsSpeculative(rules[i]) && !seenRace
    ensures forall p: nat :: Replaced(sets, rules, p, i) <==> IsEvaluate(rules[i], Untagged) && last >= 0 && !read && p == last
  {
    if last >= 0 {
      assert IsEvaluate(rules[last], Untagged);
    }
  }

  /** Adds the warnings about tags that nobody reads. */
  method WarnUnread(sets: RuleSets, rules: seq<RawRule>, defined: seq<Tag>, referenced: set<Tag>, warnings: seq<Warning>)
    returns (all: seq<Warning>)
    requires TagsSeen(rules, |rules|, defined) && ReferencesSeen(sets, rules, |rules|, referenced)
    requires WarningsSeen(sets, rules, |rules|, warnings)
    ensures forall w :: w in all <==> Deserved(sets, rules, w)
  {
    all := warnings;
    for k := 0 to |defined|
      invariant forall w :: w in all <==> w in warnings || (w.NeverReferenced? && w.tag in defined[..k] && w.tag !in referenced)
    {
      assert defined[..k + 1] == defined[..k] + [defined[k]];
      if defined[k] !in referenced {
        all := all + [NeverReferenced(defined[k])];
      }
    }
    assert defined[..|defined|] == defined;
    forall w | true
      ensures w in all <==> Deserved(sets, rules, w)
    {
      if w.NeverReferenced? {
        assert w !in warnings;
        UnreadTag(sets, rules, defined, referenced, w.tag);
      }
    }
  }

  lemma UnreadTag(sets: RuleSets, rules: seq<RawRule>, defined: seq<Tag>, referenced: set<Tag>, tag: Tag)
    requires TagsSeen(rules, |rules|, defined) && ReferencesSeen(sets, rules, |rules|, referenced)
    ensures Unread(sets, rules, tag) <==> tag in defined && tag !in referenced
  {
  }

  /** The flaw is one that rule i has. */
  ghost predicate HasFlaw(sets: RuleSets, rules: seq<RawRule>, i: nat, flaw: Flaw)
    requires i < |rules|
  {
    var use := TreeUse(sets, rules[i]);
    match flaw
    case NoAnonymousEvaluate => use.Ok? && use.value.anonymous && forall j :: 0 <= j < i ==> !IsEvaluate(rules[j], Untagged)
    case UndefinedTag(tag) => use.Ok? && tag in use.value.tags && forall j :: 0 <= j < i ==> !IsEvaluate(rules[j], tag)
    case DuplicateTag(tag) => tag != Untagged && IsEvaluate(rules[i], tag) && exists j :: 0 <= j < i && IsEvaluate(rules[j], tag)
    case _ => use == Err(flaw)
  }

  /** The flaws of a tree are about its own conditions and actions, not about the rules before it. */
  lemma {:induction false} TreeFlawKind(sets: RuleSets, rule: RawRule)
    ensures TreeUse(sets, rule).Err? ==> OwnFlaw(TreeUse(sets, rule).error)
  {
    if rule.Logical? {
      TreesFlawKind(sets, rule.rules);
    } else {
      SetFlawKind(sets, rule.cond.ruleSets);
    }
  }

  lemma {:induction false} TreesFlawKind(sets: RuleSets, rules: seq<RawRule>)
    ensures TreesUse(sets, rules).Err? ==> OwnFlaw(TreesUse(sets, rules).error)
  {
    if rules != [] {
      TreeFlawKind(sets, rules[0]);
      TreesFlawKind(sets, rules[1..]);
    }
  }

  lemma {:induction false} SetFlawKind(sets: RuleSets, tags: seq<Tag>)
    ensures RuleSetFlaw(sets, tags).Some? ==> OwnFlaw(RuleSetFlaw(sets, tags).value)
  {
    if tags != [] {
      SetFlawKind(sets, tags[1..]);
    }
  }

  predicate OwnFlaw(flaw: Flaw) {
    !flaw.NoAnonymousEvaluate? && !flaw.UndefinedTag? && !flaw.DuplicateTag?
  }

  /** Checks rule i against what the earlier rules provide. */
  method CheckRule(sets: RuleSets, rules: seq<RawRule>, i: nat, defined: seq<Tag>, last: int) returns (flaw: Option<Flaw>)
    requires i < |rules| && TagsSeen(rules, i, defined) && LastSeen(rules, i, last)
    ensures flaw.None? <==> RuleAccepted(sets, rules, i)
    ensures flaw.Some? ==> HasFlaw(sets, rules, i, flaw.value)
  {
    var use := TreeUse(sets, rules[i]);
    if use.Err? {
      TreeFlawKind(sets, rules[i]);
      return Some(use.error);
    }
    if use.value.anonymous && last < 0 {
      return Some(NoAnonymousEvaluate);
    }
    UseIsBinding(sets, rules[i]);
    var missing := FirstUndefined(defined, use.value.tags);
    if missing.Some? {
      return Some(UndefinedTag(missing.value));
    }
    if rules[i].act.action.Evaluate? && rules[i].act.action.tag in defined {
      assert IsEvaluate(rules[i], rules[i].act.action.tag);
      return Some(DuplicateTag(rules[i].act.action.tag));
    }
    return None;
  }

  lemma StopAt(sets: RuleSets, rules: seq<RawRule>, i: nat)
    requires i < |rules| && !RuleAccepted(sets, rules, i)
    ensures !Accepted(sets, rules)
  {
  }

  /**
   Validates the list. It is accepted exactly when every rule reads only what earlier rules provide; the error names
   the first rule that does not, and a flaw it has; the warnings are exactly the deserved ones.
   */
  method Validate(sets: RuleSets, rules: seq<RawRule>) returns (result: Result<seq<Warning>, (nat, Flaw)>)
    ensures result.Ok? <==> Accepted(sets, rules)
    ensures result.Err? ==>
      && result.error.0 < |rules| && !RuleAccepted(sets, rules, result.error.0) && HasFlaw(sets, rules, result.error.0, result.error.1)
      && forall j :: 0 <= j < result.error.0 ==> RuleAccepted(sets, rules, j)
    ensures result.Ok? ==> forall w :: w in result.value <==> Deserved(sets, rules, w)
  {
    var seenRace, last, read := false, -1, false;
    var defined: seq<Tag>, referenced: set<Tag>, warnings: seq<Warning> := [], {}, [];
    for i := 0 to |rules|
      invariant forall j :: 0 <= j < i ==> RuleAccepted(sets, rules, j)
      invariant RaceSeen(rules, i, seenRace) && TagsSeen(rules, i, defined) && LastSeen(rules, i, last)
      invariant ReadSeen(sets, rules, i, last, read) && ReferencesSeen(sets, rules, i, referenced)
      invariant WarningsSeen(sets, rules, i, warnings)
    {
      var rule := rules[i];
      var flaw := CheckRule(sets, rules, i, defined, last);
      if flaw.Some? {
        StopAt(sets, rules, i);
        return Err((i, flaw.value));
      }
      var use := TreeUse(sets, rule).value;
      read := read || use.anonymous;
      warnings := WarnAt(sets, rules, i, seenRace, last, read, warnings);
      seenRace := seenRace || rule.act.race;
      referenced := referenced + set t | t in use.tags;
      if rule.act.action.Evaluate? {
        if rule.act.action.tag == Untagged {
          last, read := i, false;
        } else {
          defined := defined + [rule.act.action.tag];
        }
      }
    }
    warnings := WarnUnread(sets, rules, defined, referenced, warnings);
    return Ok(warnings);
  }

  // ---------------------------------------------------------------- what the walk may rely on

  lemma SomeTag(tags: seq<Tag>)
    requires tags != []
    ensures exists t :: t in tags
  {
    assert tags[0] in tags;
  }

  lemma CompiledRespond(sets: RuleSets, rule: RawRule)
    requires TreeUse(sets, rule).Ok?
    ensures Safety.RespondShape(Compile(rule))
  {
    if rule.Logical? && rule.act.action.Respond? {
      UsesAreBindings(sets, rule.rules);
      if BoundTags(rule) != [] {
        SomeTag(BoundTags(rule));
        assert false;
      }
    }
  }

  /** Every tag a compiled rule of an accepted list refers to belongs to exactly one rule, and that rule comes earlier. */
  lemma TagsAreDefinedOnce(sets: RuleSets, rules: seq<RawRule>, i: nat, tag: Tag) returns (j: nat)
    requires Accepted(sets, rules) && i < |rules| && tag in CompileAll(rules)[i].tags
    ensures j < i && tag != Untagged && IsEvaluate(rules[j], tag)
    ensures forall k :: 0 <= k < |rules| && IsEvaluate(rules[k], tag) ==> k == j
  {
    assert RuleAccepted(sets, rules, i);
    UseIsBinding(sets, rules[i]);
    j :| 0 <= j < i && IsEvaluate(rules[j], tag);
    forall k | 0 <= k < |rules| && IsEvaluate(rules[k], tag)
      ensures k == j
    {
      EvaluatesOnce(sets, rules, k, j, tag);
    }
  }

  /** An accepted list is one the walk is correct for. */
  lemma AcceptedIsWellFormed(sets: RuleSets, rules: seq<RawRule>)
    requires Accepted(sets, rules)
    ensures Safety.WellFormed(CompileAll(rules))
  {
    var compiled := CompileAll(rules);
    forall i, j, tag | 0 <= i < j < |compiled| && Safety.Defines(compiled[i], tag) && Safety.Defines(compiled[j], tag)
      ensures tag == Untagged
    {
      assert RuleAccepted(sets, rules, j);
      assert IsEvaluate(rules[i], tag) && IsEvaluate(rules[j], tag);
    }
    forall i, tag | 0 <= i < |compiled| && tag in compiled[i].tags
      ensures tag != Untagged && exists j :: 0 <= j < i && Safety.Defines(compiled[j], tag)
    {
      var j := TagsAreDefinedOnce(sets, rules, i, tag);
      assert Safety.Defines(compiled[j], tag);
    }
    forall i | 0 <= i < |compiled|
      ensures Safety.RespondShape(compiled[i])
    {
      assert RuleAccepted(sets, rules, i);
      CompiledRespond(sets, rules[i]);
    }
  }

  ghost predicate OwnedBy(cfg: Config, ws: Steps.WalkState, tag: Tag)
    requires tag in ws.namedFutures
  {
    var f := ws.namedFutures[tag];
    && Safety.LaunchedBy(cfg, f) && !f.terminal && f.tag == tag != Untagged && f.rule < ws.index
    && (tag in ws.namedTransports ==> ws.namedTransports[tag] == f.query.transport)
    && (tag in ws.namedResponses ==> ws.namedResponses[tag] == cfg.answer(f.rule, f.query))
  }

  lemma FutureOwner(cfg: Config, ws: Steps.WalkState, done: set<nat>, tag: Tag)
    requires Safety.WalkInv(cfg, ws, done) && tag in ws.namedFutures
    ensures OwnedBy(cfg, ws, tag)
  {
    var f := ws.namedFutures[tag];
    assert Safety.LaunchedBy(cfg, ws.futures[f.id]);
  }

  lemma ReachedOwner(cfg: Config, steps: seq<System.Step>, s: System.Sys, tag: Tag)
    requires Safety.WellFormed(cfg.rules) && System.Runs(cfg, System.Start(cfg), steps, s) && tag in s.ws.namedFutures
    ensures OwnedBy(cfg, s.ws, tag)
  {
    Exchanges.StartInv(cfg);
    Exchanges.RunInv(cfg, System.Start(cfg), steps, s);
    FutureOwner(cfg, Safety.LiveWalk(s), s.done, tag);
  }

  lemma EvaluatesOnce(sets: RuleSets, rules: seq<RawRule>, j: nat, k: nat, tag: Tag)
    requires Accepted(sets, rules) && j < |rules| && k < |rules| && tag != Untagged
    requires IsEvaluate(rules[j], tag) && IsEvaluate(rules[k], tag)
    ensures j == k
  {
    assert RuleAccepted(sets, rules, k);
    assert RuleAccepted(sets, rules, j);
  }

  /**
   In every exchange over an accepted list, the query behind a tag was sent by the one rule that defines the tag, and
   the transport recorded for the tag is that rule's server.
   */
  lemma TagOwner(sets: RuleSets, rules: seq<RawRule>, cfg: Config, steps: seq<System.Step>, s: System.Sys, tag: Tag)
    requires Accepted(sets, rules) && cfg.rules == CompileAll(rules)
    requires System.Runs(cfg, System.Start(cfg), steps, s) && tag in s.ws.namedFutures
    ensures OwnedBy(cfg, s.ws, tag)
    ensures
      var f := s.ws.namedFutures[tag];
      && f.rule < |rules| && IsEvaluate(rules[f.rule], tag)
      && (forall k :: 0 <= k < |rules| && IsEvaluate(rules[k], tag) ==> k == f.rule)
      && rules[f.rule].act.action.server in cfg.transports
      && f.query.transport == cfg.transports[rules[f.rule].act.action.server]
  {
    AcceptedIsWellFormed(sets, rules);
    ReachedOwner(cfg, steps, s, tag);
    var f := s.ws.namedFutures[tag];
    forall k | 0 <= k < |rules| && IsEvaluate(rules[k], tag)
      ensures k == f.rule
    {
      EvaluatesOnce(sets, rules, k, f.rule, tag);
    }
  }

  /**
   Where the validator warns that `speculative` has no effect, removing the flag changes no run. A rule with both
   `race` and `speculative` is refused when it is built.
   */
  lemma {:induction false} WarnedFlagHasNoEffect(sets: RuleSets, rules: seq<RawRule>, cfg: Config, i: nat, steps: seq<System.Step>, t: System.Sys)
    requires cfg.rules == CompileAll(rules) && Deserved(sets, rules, SpeculativeWithoutRace(i)) && !rules[i].act.race
    ensures
      System.Runs(cfg, System.Start(cfg), steps, t)
      <==> System.Runs(Flags.Unmark(cfg, i), System.Start(Flags.Unmark(cfg, i)), steps, t)
  {
    forall k | 0 <= k <= i
      ensures !cfg.rules[k].Races()
    {
      assert !rules[k].act.race;
    }
    Flags.SpeculativeWithoutRace(cfg, i, steps, t);
  }
}
