/** The static checks on rule lists, said of the single conditions and actions in the rule trees. */
module RuleMeaning {
  import opened Wrappers
  import opened DnsTypes
  import opened RuleOptions
  import V = RuleValidator
  import L = LegacyMode
  import Flags = WalkSpeculation

  // ---------------------------------------------------------------- the parts of rule trees

  /** The rule and everything below it. */
  function Parts(rule: RawRule): seq<RawRule> {
    match rule
    case Default(_, _) => [rule]
    case Logical(rules, _) => [rule] + AllParts(rules)
  }

  function AllParts(rules: seq<RawRule>): seq<RawRule> {
    if rules == [] then [] else Parts(rules[0]) + AllParts(rules[1..])
  }

  // ---------------------------------------------------------------- legacy mode

  /** All rule sets the conditions name are there. */
  ghost predicate SetsKnown(sets: RuleSets, parts: seq<RawRule>) {
    forall p, t :: p in parts && p.Default? && t in p.cond.ruleSets ==> t in sets
  }

  predicate UsesSet(p: RawRule, t: Tag) {
    p.Default? && t in p.cond.ruleSets
  }

  /** The part keeps legacy mode off: by its action, by matching on a response or a query type, or by a rule set that does. */
  ghost predicate Disables(sets: RuleSets, p: RawRule) {
    || p.act.race || p.act.action.Evaluate? || p.act.action.Respond?
    || (p.act.action.Route? && (p.act.action.speculative || p.act.action.opts.disableOptimistic))
    || (p.act.action.SetOptions? && p.act.action.opts.disableOptimistic)
    || (p.Default? && (p.cond.response != Unset || p.cond.responseFields || p.cond.ipVersion || p.cond.queryType))
    || exists t :: UsesSet(p, t) && t in sets && sets[t].queryType
  }

  /** The action sets a strategy, which only legacy mode can do. */
  predicate SetsStrategy(p: RawRule) {
    p.act.strategy && !p.act.action.Respond? && !p.act.action.Reject? && !p.act.action.Predefined?
  }

  /** The part needs legacy mode: by a strategy, by filtering answers without `match_response`, or by a rule set that does. */
  ghost predicate Needs(sets: RuleSets, p: RawRule) {
    || SetsStrategy(p)
    || (p.Default? && p.cond.acceptEmpty)
    || (p.Default? && p.cond.response == Unset && (p.cond.ipCIDR || p.cond.ipIsPrivate || p.cond.ipAcceptAny))
    || (p.Default? && !p.cond.matchSource && exists t :: UsesSet(p, t) && t in sets && sets[t].ipCIDR)
  }

  lemma {:induction false} SetFlags(sets: RuleSets, tags: seq<Tag>, matchSource: bool, flags: L.Flags)
    ensures L.RuleSetFlags(sets, tags, matchSource, flags).Ok? <==> forall t :: t in tags ==> t in sets
    ensures L.RuleSetFlags(sets, tags, matchSource, flags).Ok? ==>
      var r := L.RuleSetFlags(sets, tags, matchSource, flags).value;
      && (r.disabled <==> flags.disabled || exists t :: t in tags && t in sets && sets[t].queryType)
      && (r.needed <==> flags.needed || (!matchSource && exists t :: t in tags && t in sets && sets[t].ipCIDR))
      && r.strategy == flags.strategy
    decreases |tags|
  {
    if tags != [] {
      assert tags == [tags[0]] + tags[1..];
      if tags[0] in sets {
        SetFlags(sets, tags[1..], matchSource, L.Noted(flags, sets[tags[0]], matchSource));
      }
    }
  }

  lemma DefaultFlags(sets: RuleSets, rule: RawRule)
    requires rule.Default?
    ensures L.RuleFlags(sets, rule).Ok? <==> SetsKnown(sets, [rule])
    ensures L.RuleFlags(sets, rule).Ok? ==>
      var r := L.RuleFlags(sets, rule).value;
      (r.disabled <==> Disables(sets, rule)) && (r.needed <==> Needs(sets, rule)) && (r.strategy <==> SetsStrategy(rule))
  {
    var strategy := L.HasStrategy(rule.act);
    var flags := L.Flags(L.ConditionDisables(rule.cond, rule.act) || L.ActionDisables(rule.act), L.ConditionNeeds(rule.cond) || strategy, strategy);
    SetFlags(sets, rule.cond.ruleSets, rule.cond.matchSource, flags);
    assert rule in [rule];
    assert forall t :: UsesSet(rule, t) <==> t in rule.cond.ruleSets;
  }

  /** What flags mean for some parts. */
  ghost predicate FlagsOf(sets: RuleSets, parts: seq<RawRule>, r: Result<L.Flags, L.ModeError>) {
    && (r.Ok? <==> SetsKnown(sets, parts))
    && (r.Ok? ==>
          && (r.value.disabled <==> exists p :: p in parts && Disables(sets, p))
          && (r.value.needed <==> exists p :: p in parts && Needs(sets, p))
          && (r.value.strategy <==> exists p :: p in parts && SetsStrategy(p)))
  }

  lemma FlagsConcat(sets: RuleSets, a: seq<RawRule>, b: seq<RawRule>, r: Result<L.Flags, L.ModeError>, q: Result<L.Flags, L.ModeError>, both: Result<L.Flags, L.ModeError>)
    requires FlagsOf(sets, a, r) && FlagsOf(sets, b, q)
    requires both.Ok? <==> r.Ok? && q.Ok?
    requires both.Ok? ==> both.value == L.Merge(r.value, q.value)
    ensures FlagsOf(sets, a + b, both)
  {
    assert forall p :: p in a + b <==> p in a || p in b;
  }

  lemma OwnFlags(sets: RuleSets, rule: RawRule)
    requires rule.Logical?
    ensures FlagsOf(sets, [rule],
      Ok(L.Flags(rule.act.action.Evaluate? || rule.act.action.Respond? || L.ActionDisables(rule.act), L.HasStrategy(rule.act), L.HasStrategy(rule.act))))
  {
    assert rule in [rule];
    assert forall t :: !UsesSet(rule, t);
  }

  lemma {:induction false} RuleFlagsMeaning(sets: RuleSets, rule: RawRule)
    ensures FlagsOf(sets, Parts(rule), L.RuleFlags(sets, rule))
  {
    match rule
    case Default(_, _) =>
      DefaultFlags(sets, rule);
      assert rule in [rule];
    case Logical(rules, act) =>
      FlagsMeaning(sets, rules);
      OwnFlags(sets, rule);
      var strategy := L.HasStrategy(act);
      FlagsConcat(sets, [rule], AllParts(rules), Ok(L.Flags(act.action.Evaluate? || act.action.Respond? || L.ActionDisables(act), strategy, strategy)),
                  L.SubFlags(sets, rules), L.RuleFlags(sets, rule));
  }

  /** The flags of a rule list, from the conditions and actions anywhere in its trees. */
  lemma {:induction false} FlagsMeaning(sets: RuleSets, rules: seq<RawRule>)
    ensures FlagsOf(sets, AllParts(rules), L.SubFlags(sets, rules))
  {
    if rules != [] {
      RuleFlagsMeaning(sets, rules[0]);
      FlagsMeaning(sets, rules[1..]);
      FlagsConcat(sets, Parts(rules[0]), AllParts(rules[1..]), L.RuleFlags(sets, rules[0]), L.SubFlags(sets, rules[1..]), L.SubFlags(sets, rules));
    }
  }

  /** The mode a list leads to, from its parts. */
  lemma ModeMeaning(sets: RuleSets, rules: seq<RawRule>)
    ensures
      var parts, mode := AllParts(rules), L.ResolveMode(sets, rules);
      && (mode.Ok? <==> SetsKnown(sets, parts) && !((exists p :: p in parts && Disables(sets, p)) && exists p :: p in parts && SetsStrategy(p)))
      && (mode.Ok? ==> (mode.value <==> (exists p :: p in parts && Needs(sets, p)) && !exists p :: p in parts && Disables(sets, p)))
  {
    FlagsMeaning(sets, rules);
  }

  /** When rules may run in a mode, from their parts. */
  lemma SoundMeaning(rules: seq<RawRule>, sets: RuleSets, legacy: bool)
    ensures
      var parts := AllParts(rules);
      L.Sound(rules, sets, legacy) <==>
        && SetsKnown(sets, parts)
        && !((exists p :: p in parts && Disables(sets, p)) && exists p :: p in parts && SetsStrategy(p))
        && (legacy ==> forall p :: p in parts ==> !Disables(sets, p))
        && (!legacy ==> V.Accepted(sets, rules) && ((exists p :: p in parts && Needs(sets, p)) ==> exists p :: p in parts && Disables(sets, p)))
  {
    FlagsMeaning(sets, rules);
  }

  // ---------------------------------------------------------------- the validator

  /** A condition that can be judged outside legacy mode. */
  ghost predicate Fine(sets: RuleSets, p: RawRule) {
    p.Default? ==>
      && !p.cond.acceptEmpty
      && (p.cond.response == Unset ==>
            && !p.cond.responseFields && !p.cond.ipCIDR && !p.cond.ipIsPrivate && !p.cond.ipAcceptAny
            && forall t :: t in p.cond.ruleSets ==> t in sets && (sets[t].ipCIDR ==> sets[t].nonIPCIDR))
  }

  /** The part names the tagged response to match on. */
  predicate Names(p: RawRule, tag: Tag) {
    p.Default? && p.cond.response.Named? && Tag(p.cond.response.name) == tag
  }

  ghost predicate NamedIn(parts: seq<RawRule>, tag: Tag) {
    exists p :: p in parts && Names(p, tag)
  }

  /** The part reads the untagged response: to match on it, or to answer with it. */
  predicate ReadsUntagged(p: RawRule) {
    || (p.Default? && p.cond.response == Anonymous)
    || (p.act.action.Respond? && (p.Default? ==> !p.cond.response.Named?))
  }

  /** No logical rule answers while a part below it names a tag. */
  ghost predicate NoTagUnderRespond(parts: seq<RawRule>) {
    forall p, q, tag :: p in parts && p.Logical? && p.act.action.Respond? && q in AllParts(p.rules) ==> !Names(q, tag)
  }

  ghost predicate UseOf(sets: RuleSets, parts: seq<RawRule>, r: Result<V.Use, V.Flaw>) {
    && (r.Ok? <==> (forall p :: p in parts ==> Fine(sets, p)) && NoTagUnderRespond(parts))
    && (r.Ok? ==>
          && (r.value.anonymous <==> exists p :: p in parts && ReadsUntagged(p))
          && (forall tag :: tag in r.value.tags <==> NamedIn(parts, tag)))
  }

  lemma {:induction false} SetFlaw(sets: RuleSets, tags: seq<Tag>)
    ensures V.RuleSetFlaw(sets, tags).None? <==> forall t :: t in tags ==> t in sets && (sets[t].ipCIDR ==> sets[t].nonIPCIDR)
  {
    if tags != [] {
      assert tags == [tags[0]] + tags[1..];
      SetFlaw(sets, tags[1..]);
    }
  }

  lemma DefaultUseMeaning(sets: RuleSets, rule: RawRule)
    requires rule.Default?
    ensures UseOf(sets, [rule], V.TreeUse(sets, rule))
  {
    SetFlaw(sets, rule.cond.ruleSets);
    assert rule in [rule];
  }

  lemma UseConcat(sets: RuleSets, a: seq<RawRule>, b: seq<RawRule>, r: Result<V.Use, V.Flaw>, q: Result<V.Use, V.Flaw>, both: Result<V.Use, V.Flaw>)
    requires UseOf(sets, a, r) && UseOf(sets, b, q)
    requires both.Ok? <==> r.Ok? && q.Ok?
    requires both.Ok? ==> both.value == V.Use(r.value.anonymous || q.value.anonymous, r.value.tags + q.value.tags)
    ensures UseOf(sets, a + b, both)
  {
    assert forall p :: p in a + b <==> p in a || p in b;
  }

  /** A logical rule itself: it is fine unless it answers over a named tag. */
  lemma OwnUse(sets: RuleSets, rule: RawRule, sub: V.Use)
    requires rule.Logical? && UseOf(sets, AllParts(rule.rules), Ok(sub))
    ensures UseOf(sets, [rule],
      if rule.act.action.Respond? && |sub.tags| > 0 then Err(V.LogicalRespondTag) else Ok(V.Use(rule.act.action.Respond?, [])))
  {
    assert rule in [rule];
    forall q, tag | q in AllParts(rule.rules) && Names(q, tag)
      ensures tag in sub.tags
    {
      assert NamedIn(AllParts(rule.rules), tag);
    }
    if rule.act.action.Respond? && |sub.tags| > 0 {
      assert NamedIn(AllParts(rule.rules), sub.tags[0]);
      var q :| q in AllParts(rule.rules) && Names(q, sub.tags[0]);
      assert !NoTagUnderRespond([rule]);
    }
  }

  lemma {:induction false} TreeMeaning(sets: RuleSets, rule: RawRule)
    ensures UseOf(sets, Parts(rule), V.TreeUse(sets, rule))
  {
    match rule
    case Default(_, _) => DefaultUseMeaning(sets, rule);
    case Logical(rules, act) =>
      TreesMeaning(sets, rules);
      var sub := V.TreesUse(sets, rules);
      if sub.Ok? {
        OwnUse(sets, rule, sub.value);
        var own: Result<V.Use, V.Flaw> :=
          if act.action.Respond? && |sub.value.tags| > 0 then Err(V.LogicalRespondTag) else Ok(V.Use(act.action.Respond?, []));
        assert own.Ok? ==> [] + sub.value.tags == sub.value.tags;
        UseConcat(sets, [rule], AllParts(rules), own, sub, V.TreeUse(sets, rule));
      } else {
        BadBelow(sets, rule, V.TreeUse(sets, rule));
      }
  }

  lemma BadBelow(sets: RuleSets, rule: RawRule, r: Result<V.Use, V.Flaw>)
    requires rule.Logical? && r.Err? && UseOf(sets, AllParts(rule.rules), V.TreesUse(sets, rule.rules)) && V.TreesUse(sets, rule.rules).Err?
    ensures UseOf(sets, Parts(rule), r)
  {
    assert forall p :: p in AllParts(rule.rules) ==> p in Parts(rule);
  }

  /** What the validator makes of rule trees, from the conditions and actions anywhere in them. */
  lemma {:induction false} TreesMeaning(sets: RuleSets, rules: seq<RawRule>)
    ensures UseOf(sets, AllParts(rules), V.TreesUse(sets, rules))
  {
    if rules != [] {
      TreeMeaning(sets, rules[0]);
      TreesMeaning(sets, rules[1..]);
      UseConcat(sets, Parts(rules[0]), AllParts(rules[1..]), V.TreeUse(sets, rules[0]), V.TreesUse(sets, rules[1..]), V.TreesUse(sets, rules));
    }
  }

  /** A flaw of a tree, from its conditions and actions. */
  ghost predicate FlawIn(sets: RuleSets, parts: seq<RawRule>, flaw: V.Flaw) {
    match flaw
    case FieldsNeedResponse =>
      exists p :: p in parts && p.Default? && p.cond.response == Unset &&
        (p.cond.responseFields || p.cond.ipCIDR || p.cond.ipIsPrivate || p.cond.ipAcceptAny)
    case MissingRuleSet(t) => t !in sets && exists p :: p in parts && UsesSet(p, t) && p.cond.response == Unset
    case AddressOnlyRuleSet(t) =>
      t in sets && sets[t].ipCIDR && !sets[t].nonIPCIDR && exists p :: p in parts && UsesSet(p, t) && p.cond.response == Unset
    case AcceptEmptyRemoved => exists p :: p in parts && p.Default? && p.cond.acceptEmpty
    case LogicalRespondTag => !NoTagUnderRespond(parts)
    case _ => false
  }

  lemma {:induction false} SetFlawMeaning(sets: RuleSets, tags: seq<Tag>)
    ensures
      match V.RuleSetFlaw(sets, tags)
      case None => true
      case Some(MissingRuleSet(t)) => t in tags && t !in sets
      case Some(AddressOnlyRuleSet(t)) => t in tags && t in sets && sets[t].ipCIDR && !sets[t].nonIPCIDR
      case Some(_) => false
  {
    if tags != [] {
      SetFlawMeaning(sets, tags[1..]);
    }
  }

  lemma FlawBelow(sets: RuleSets, parts: seq<RawRule>, more: seq<RawRule>, flaw: V.Flaw)
    requires FlawIn(sets, parts, flaw) && forall p :: p in parts ==> p in more
    ensures FlawIn(sets, more, flaw)
  {
  }

  /** The flaw the validator finds in a tree is there. */
  lemma {:induction false} FlawMeaning(sets: RuleSets, rule: RawRule)
    ensures V.TreeUse(sets, rule).Err? ==> FlawIn(sets, Parts(rule), V.TreeUse(sets, rule).error)
  {
    match rule
    case Default(cond, _) =>
      SetFlawMeaning(sets, cond.ruleSets);
      assert rule in [rule];
      assert forall t :: t in cond.ruleSets ==> UsesSet(rule, t);
    case Logical(rules, act) =>
      var use := V.TreesUse(sets, rules);
      if use.Err? {
        FlawsMeaning(sets, rules);
        FlawBelow(sets, AllParts(rules), Parts(rule), use.error);
      } else if V.TreeUse(sets, rule).Err? {
        TreesMeaning(sets, rules);
        assert NamedIn(AllParts(rules), use.value.tags[0]);
        var q :| q in AllParts(rules) && Names(q, use.value.tags[0]);
        assert rule in Parts(rule);
      }
  }

  lemma {:induction false} FlawsMeaning(sets: RuleSets, rules: seq<RawRule>)
    ensures V.TreesUse(sets, rules).Err? ==> FlawIn(sets, AllParts(rules), V.TreesUse(sets, rules).error)
  {
    if rules != [] {
      FlawMeaning(sets, rules[0]);
      FlawsMeaning(sets, rules[1..]);
      if V.TreeUse(sets, rules[0]).Err? {
        FlawBelow(sets, Parts(rules[0]), AllParts(rules), V.TreeUse(sets, rules[0]).error);
      } else if V.TreesUse(sets, rules).Err? {
        FlawBelow(sets, AllParts(rules[1..]), AllParts(rules), V.TreesUse(sets, rules).error);
      }
    }
  }

  /** An evaluate rule among the first i defines the response. */
  predicate DefinedBefore(rules: seq<RawRule>, i: nat, tag: Tag)
    requires i <= |rules|
  {
    exists j :: 0 <= j < i && rules[j].act.action.Evaluate? && rules[j].act.action.tag == tag
  }

  /** Rule i can be judged, and reads only what earlier rules define; a tag it defines is new. */
  ghost predicate RuleFits(sets: RuleSets, rules: seq<RawRule>, i: nat)
    requires i < |rules|
  {
    var parts, action := Parts(rules[i]), rules[i].act.action;
    && (forall p :: p in parts ==> Fine(sets, p)) && NoTagUnderRespond(parts)
    && ((exists p :: p in parts && ReadsUntagged(p)) ==> DefinedBefore(rules, i, Untagged))
    && (forall tag :: NamedIn(parts, tag) ==> DefinedBefore(rules, i, tag))
    && (action.Evaluate? && action.tag != Untagged ==> !DefinedBefore(rules, i, action.tag))
  }

  lemma DefinedIff(rules: seq<RawRule>, i: nat, tag: Tag)
    requires i <= |rules|
    ensures DefinedBefore(rules, i, tag) <==> exists j :: 0 <= j < i && IsEvaluate(rules[j], tag)
  {
    if j :| 0 <= j < i && rules[j].act.action.Evaluate? && rules[j].act.action.tag == tag {
      assert IsEvaluate(rules[j], tag);
    }
  }

  lemma RuleFitsIff(sets: RuleSets, rules: seq<RawRule>, i: nat)
    requires i < |rules|
    ensures V.RuleAccepted(sets, rules, i) <==> RuleFits(sets, rules, i)
  {
    TreeMeaning(sets, rules[i]);
    forall tag | true
      ensures DefinedBefore(rules, i, tag) <==> exists j :: 0 <= j < i && IsEvaluate(rules[j], tag)
    {
      DefinedIff(rules, i, tag);
    }
    var action := rules[i].act.action;
    assert forall t :: IsEvaluate(rules[i], t) ==> action.Evaluate? && t == action.tag;
    assert action.Evaluate? ==> IsEvaluate(rules[i], action.tag);
  }

  /**
   A list is accepted exactly when every condition can be judged, no logical rule answers over a named tag, everything
   read is defined by an earlier evaluate rule, and no tag is defined twice.
   */
  lemma AcceptedMeaning(sets: RuleSets, rules: seq<RawRule>)
    ensures V.Accepted(sets, rules) <==> forall i :: 0 <= i < |rules| ==> RuleFits(sets, rules, i)
  {
    forall i | 0 <= i < |rules|
      ensures V.RuleAccepted(sets, rules, i) <==> RuleFits(sets, rules, i)
    {
      RuleFitsIff(sets, rules, i);
    }
  }

  /** The validator warns of a `speculative` flag exactly when there is one to remove and no rule in front of it races. */
  lemma SpeculativeWarning(sets: RuleSets, rules: seq<RawRule>, i: nat)
    requires i < |rules|
    ensures V.Deserved(sets, rules, V.SpeculativeWithoutRace(i)) <==>
      (Flags.Unmarked(rules[i].act.action) != rules[i].act.action && forall j :: 0 <= j < i ==> !rules[j].act.race)
  {
  }

  // ---------------------------------------------------------------- what a rule is compiled to

  /** The compiled rule binds the tags named below it, binds the untagged response if a condition does, and keeps its flags. */
  lemma {:induction false} CompiledMeaning(rule: RawRule)
    ensures forall tag :: tag in Compile(rule).tags <==> exists p :: p in Parts(rule) && Names(p, tag)
    ensures Compile(rule).anonymous <==> exists p :: p in Parts(rule) && p.Default? && p.cond.response == Anonymous
    ensures Compile(rule).respondTag == if rule.Default? && rule.cond.response.Named? then Tag(rule.cond.response.name) else Untagged
    ensures Compile(rule).race == rule.act.race && Compile(rule).action == rule.act.action
  {
    BindsMeaning(rule);
  }

  lemma {:induction false} BindsMeaning(rule: RawRule)
    ensures forall tag :: tag in BoundTags(rule) <==> exists p :: p in Parts(rule) && Names(p, tag)
    ensures BindsAnonymous(rule) <==> exists p :: p in Parts(rule) && p.Default? && p.cond.response == Anonymous
  {
    match rule
    case Default(cond, _) =>
      assert rule in [rule] && Parts(rule) == [rule];
      assert forall tag :: tag in BoundTags(rule) <==> Names(rule, tag);
    case Logical(rules, _) => AllBindMeaning(rules);
  }

  lemma {:induction false} AllBindMeaning(rules: seq<RawRule>)
    ensures forall tag :: tag in AllBoundTags(rules) <==> exists p :: p in AllParts(rules) && Names(p, tag)
    ensures (exists r <- rules :: BindsAnonymous(r)) <==> exists p :: p in AllParts(rules) && p.Default? && p.cond.response == Anonymous
  {
    if rules != [] {
      BindsMeaning(rules[0]);
      AllBindMeaning(rules[1..]);
      assert rules == [rules[0]] + rules[1..];
      assert forall p :: p in AllParts(rules) <==> p in Parts(rules[0]) || p in AllParts(rules[1..]);
    }
  }
}
