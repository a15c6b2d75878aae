/** Which mode the DNS router runs in, and which rule-set updates it lets through while it runs. */
module LegacyMode {
  import opened Wrappers
  import opened DnsTypes
  import opened RuleOptions
  import V = RuleValidator

  /** What the rules say about legacy mode. `strategy`: it is needed because an action sets a strategy. */
  datatype Flags = Flags(disabled: bool, needed: bool, strategy: bool)

  datatype ModeError = RuleSetNotFound(set_: Tag) | StrategyConflict

  const NoFlags := Flags(false, false, false)

  function Merge(a: Flags, b: Flags): Flags {
    Flags(a.disabled || b.disabled, a.needed || b.needed, a.strategy || b.strategy)
  }

  predicate ActionDisables(act: RawAction) {
    act.race ||
    match act.action
    case Route(_, speculative, opts) => opts.disableOptimistic || speculative
    case Evaluate(_, _, speculative, opts) => opts.disableOptimistic || speculative
    case SetOptions(opts) => opts.disableOptimistic
    case Respond => false
    case Reject(_) => false
    case Predefined => false
  }

  predicate HasStrategy(act: RawAction) {
    act.strategy && (act.action.Route? || act.action.Evaluate? || act.action.SetOptions?)
  }

  predicate ConditionDisables(cond: Condition, act: RawAction) {
    !cond.response.Unset? || cond.responseFields || act.action.Evaluate? || act.action.Respond? || cond.ipVersion || cond.queryType
  }

  predicate ConditionNeeds(cond: Condition) {
    cond.acceptEmpty || (cond.response.Unset? && (cond.ipAcceptAny || cond.ipCIDR || cond.ipIsPrivate))
  }

  /** The flags with what one rule set asks for. */
  function Noted(flags: Flags, m: Metadata, matchSource: bool): Flags {
    flags.(disabled := flags.disabled || m.queryType, needed := flags.needed || (!matchSource && m.ipCIDR))
  }

  /** Adds what the rule sets of a condition contain. */
  function RuleSetFlags(sets: RuleSets, tags: seq<Tag>, matchSource: bool, flags: Flags): Result<Flags, ModeError> {
    if tags == [] then Ok(flags)
    else if tags[0] !in sets then Err(RuleSetNotFound(tags[0]))
    else
      var m := sets[tags[0]];
      RuleSetFlags(sets, tags[1..], matchSource, Noted(flags, m, matchSource))
  }

  function RuleFlags(sets: RuleSets, rule: RawRule): Result<Flags, ModeError> {
    var strategy := HasStrategy(rule.act);
    match rule
    case Default(cond, act) =>
      RuleSetFlags(sets, cond.ruleSets, cond.matchSource,
                   Flags(ConditionDisables(cond, act) || ActionDisables(act), ConditionNeeds(cond) || strategy, strategy))
    case Logical(rules, act) =>
      match SubFlags(sets, rules) {
        case Err(e) => Err(e)
        case Ok(sub) =>
          Ok(Merge(Flags(act.action.Evaluate? || act.action.Respond? || ActionDisables(act), strategy, strategy), sub))
      }
  }

  function SubFlags(sets: RuleSets, rules: seq<RawRule>): Result<Flags, ModeError> {
    if rules == [] then Ok(NoFlags)
    else
      match RuleFlags(sets, rules[0]) {
        case Err(e) => Err(e)
        case Ok(first) =>
          match SubFlags(sets, rules[1..]) {
            case Err(e) => Err(e)
            case Ok(rest) => Ok(Merge(first, rest))
          }
      }
  }

  /** Goes through the list and merges what the rules ask for. */
  method ModeRequirements(sets: RuleSets, rules: seq<RawRule>) returns (result: Result<Flags, (nat, ModeError)>)
    ensures result.Ok? <==> SubFlags(sets, rules).Ok?
    ensures result.Ok? ==> SubFlags(sets, rules) == Ok(result.value)
    ensures result.Err? ==>
      && result.error.0 < |rules| && RuleFlags(sets, rules[result.error.0]) == Err(result.error.1)
      && forall j :: 0 <= j < result.error.0 ==> RuleFlags(sets, rules[j]).Ok?
  {
    var flags := NoFlags;
    for i := 0 to |rules|
      invariant forall j :: 0 <= j < i ==> RuleFlags(sets, rules[j]).Ok?
      invariant SubFlags(sets, rules).Ok? == SubFlags(sets, rules[i..]).Ok?
      invariant SubFlags(sets, rules[i..]).Ok? ==> SubFlags(sets, rules).value == Merge(flags, SubFlags(sets, rules[i..]).value)
    {
      assert rules[i..][1..] == rules[i + 1..];
      var one := RuleFlags(sets, rules[i]);
      if one.Err? {
        return Err((i, one.error));
      }
      flags := Merge(flags, one.value);
    }
    return Ok(flags);
  }

  /** A rule set of the list asks for a flag. */
  lemma {:induction false} FlagsAreAsked(sets: RuleSets, rules: seq<RawRule>)
    requires SubFlags(sets, rules).Ok?
    ensures forall i :: 0 <= i < |rules| ==> RuleFlags(sets, rules[i]).Ok?
    ensures SubFlags(sets, rules).value.disabled <==> exists i :: 0 <= i < |rules| && RuleFlags(sets, rules[i]).value.disabled
    ensures SubFlags(sets, rules).value.needed <==> exists i :: 0 <= i < |rules| && RuleFlags(sets, rules[i]).value.needed
    ensures SubFlags(sets, rules).value.strategy <==> exists i :: 0 <= i < |rules| && RuleFlags(sets, rules[i]).value.strategy
  {
    if rules != [] {
      FlagsAreAsked(sets, rules[1..]);
      forall i | 0 <= i < |rules|
        ensures RuleFlags(sets, rules[i]).Ok?
      {
        if i > 0 {
          assert rules[i] == rules[1..][i - 1];
        }
      }
      assert forall k :: 0 <= k < |rules| - 1 ==> rules[1..][k] == rules[k + 1];
    }
  }

  // ---------------------------------------------------------------- the mode

  /** The mode the rules lead to: legacy (true) or not, or no mode at all. */
  function ResolveMode(sets: RuleSets, rules: seq<RawRule>): Result<bool, ModeError> {
    match SubFlags(sets, rules)
    case Err(e) => Err(e)
    case Ok(flags) =>
      if flags.disabled && flags.strategy then Err(StrategyConflict)
      else if flags.disabled then Ok(false)
      else Ok(flags.needed)
  }

  /** The router may run these rules in this mode. */
  ghost predicate Sound(rules: seq<RawRule>, sets: RuleSets, legacy: bool) {
    && SubFlags(sets, rules).Ok?
    && var flags := SubFlags(sets, rules).value;
       && !(flags.disabled && flags.strategy)
       && if legacy then !flags.disabled
          else (flags.needed ==> flags.disabled) && V.Accepted(sets, rules)
  }

  /** Starting the router: the mode it starts in, or a refusal. */
  method StartMode(sets: RuleSets, rules: seq<RawRule>) returns (mode: Option<bool>)
    ensures mode.Some? ==> Sound(rules, sets, mode.value) && ResolveMode(sets, rules) == Ok(mode.value)
    ensures mode.None? ==> ResolveMode(sets, rules).Err? || (ResolveMode(sets, rules) == Ok(false) && !V.Accepted(sets, rules))
  {
    var resolved := ResolveMode(sets, rules);
    if resolved.Err? {
      return None;
    }
    if !resolved.value {
      var validated := V.Validate(sets, rules);
      if validated.Err? {
        return None;
      }
    }
    return Some(resolved.value);
  }

  /** The check of a rule-set update while the router runs. */
  method CheckUpdate(rules: seq<RawRule>, sets: RuleSets, legacy: bool, tag: Tag, metadata: Metadata) returns (allowed: bool)
    ensures allowed <==> Sound(rules, sets[tag := metadata], legacy)
  {
    if rules == [] {
      return true;
    }
    var next := sets[tag := metadata];
    var requirements := ModeRequirements(next, rules);
    if requirements.Err? {
      return false;
    }
    var flags := requirements.value;
    if flags.disabled && flags.strategy {
      return false;
    }
    var candidate := !flags.disabled && flags.needed;
    if legacy {
      return candidate || !flags.disabled;
    }
    if candidate {
      return false;
    }
    var validated := V.Validate(next, rules);
    return validated.Ok?;
  }

  /** The check of a rule-set update before the router starts: it passes exactly when the router could then start. */
  method CheckUpdateBeforeStart(rules: seq<RawRule>, sets: RuleSets, tag: Tag, metadata: Metadata) returns (allowed: bool)
    ensures allowed <==> exists legacy :: ResolveMode(sets[tag := metadata], rules) == Ok(legacy) && Sound(rules, sets[tag := metadata], legacy)
  {
    if rules == [] {
      assert ResolveMode(sets[tag := metadata], rules) == Ok(false);
      return true;
    }
    var mode := StartMode(sets[tag := metadata], rules);
    return mode.Some?;
  }

  // ---------------------------------------------------------------- runs of updates

  /**
   A running router and the updates that are on their way. A rule set checks its update first and replaces its
   metadata later; nothing keeps another rule set from doing the same in between.
   */
  datatype Running = Running(sets: RuleSets, legacy: bool, checked: map<Tag, Metadata>)

  datatype Update = Check(tag: Tag, metadata: Metadata) | Replace(tag: Tag)

  ghost predicate Possible(rules: seq<RawRule>, s: Running, u: Update) {
    match u
    case Check(tag, metadata) => tag !in s.checked && Sound(rules, s.sets[tag := metadata], s.legacy)
    case Replace(tag) => tag in s.checked
  }

  function After(s: Running, u: Update): Running
    requires u.Replace? ==> u.tag in s.checked
  {
    match u
    case Check(tag, metadata) => s.(checked := s.checked[tag := metadata])
    case Replace(tag) => s.(sets := s.sets[tag := s.checked[tag]], checked := s.checked - {tag})
  }

  ghost predicate UpdateRun(rules: seq<RawRule>, s: Running, updates: seq<Update>, t: Running)
    decreases |updates|
  {
    if updates == [] then s == t
    else Possible(rules, s, updates[0]) && UpdateRun(rules, After(s, updates[0]), updates[1..], t)
  }

  /** A check is made only when no other update is on its way. */
  ghost predicate Serial(rules: seq<RawRule>, s: Running, updates: seq<Update>)
    decreases |updates|
  {
    updates == [] ||
    (Possible(rules, s, updates[0]) && (updates[0].Check? ==> s.checked == map[]) && Serial(rules, After(s, updates[0]), updates[1..]))
  }

  ghost predicate Prepared(rules: seq<RawRule>, s: Running) {
    && Sound(rules, s.sets, s.legacy)
    && |s.checked| <= 1
    && forall tag :: tag in s.checked ==> Sound(rules, s.sets[tag := s.checked[tag]], s.legacy)
  }

  lemma PreparedStep(rules: seq<RawRule>, s: Running, u: Update)
    requires Prepared(rules, s) && Possible(rules, s, u) && (u.Check? ==> s.checked == map[])
    ensures Prepared(rules, After(s, u))
  {
    if u.Replace? {
      assert s.checked.Keys == {u.tag} by {
        OnlyKey(s.checked, u.tag);
      }
      assert (s.checked - {u.tag}).Keys == {};
    } else {
      assert After(s, u).checked == map[u.tag := u.metadata];
    }
  }

  lemma OnlyKey(m: map<Tag, Metadata>, tag: Tag)
    requires |m| <= 1 && tag in m
    ensures m.Keys == {tag}
  {
    assert |m.Keys - {tag}| == |m.Keys| - 1;
    assert m.Keys - {tag} == {};
  }

  /** When updates do not overlap, the router never runs rules in a mode they do not fit. */
  lemma {:induction false} SerialUpdatesStaySound(rules: seq<RawRule>, s: Running, updates: seq<Update>, t: Running)
    requires Prepared(rules, s) && UpdateRun(rules, s, updates, t) && Serial(rules, s, updates)
    ensures Sound(rules, t.sets, t.legacy)
    decreases |updates|
  {
    if updates != [] {
      PreparedStep(rules, s, updates[0]);
      SerialUpdatesStaySound(rules, After(s, updates[0]), updates[1..], t);
    }
  }

  // ---------------------------------------------------------------- overlapping updates

  /** Two updates of different rule sets applied to the same metadata. */
  function Both(sets: RuleSets, s: Tag, m: Metadata, t: Tag, n: Metadata): RuleSets {
    sets[s := m][t := n]
  }

  /** Each rule set is one of the two updates' or unchanged. */
  lemma AtBoth(sets: RuleSets, s: Tag, m: Metadata, t: Tag, n: Metadata, tag: Tag)
    requires tag in sets[s := m] && tag in sets[t := n]
    ensures tag in Both(sets, s, m, t, n)
    ensures Both(sets, s, m, t, n)[tag] == sets[s := m][tag] || Both(sets, s, m, t, n)[tag] == sets[t := n][tag]
  {
  }

  lemma {:induction false} RuleSetFlagsBoth(sets: RuleSets, s: Tag, m: Metadata, t: Tag, n: Metadata, tags: seq<Tag>, source: bool, f: Flags, g: Flags, h: Flags)
    requires RuleSetFlags(sets[s := m], tags, source, g).Ok? && RuleSetFlags(sets[t := n], tags, source, h).Ok?
    requires f.disabled ==> g.disabled || h.disabled
    requires f.strategy == g.strategy == h.strategy
    ensures RuleSetFlags(Both(sets, s, m, t, n), tags, source, f).Ok?
    ensures
      var both := RuleSetFlags(Both(sets, s, m, t, n), tags, source, f).value;
      var one, other := RuleSetFlags(sets[s := m], tags, source, g).value, RuleSetFlags(sets[t := n], tags, source, h).value;
      (both.disabled ==> one.disabled || other.disabled) && both.strategy == one.strategy == other.strategy
  {
    if tags != [] {
      AtBoth(sets, s, m, t, n, tags[0]);
      var x, y, z := Both(sets, s, m, t, n)[tags[0]], sets[s := m][tags[0]], sets[t := n][tags[0]];
      RuleSetFlagsBoth(sets, s, m, t, n, tags[1..], source, Noted(f, x, source), Noted(g, y, source), Noted(h, z, source));
    }
  }

  /** Two updates together disable legacy mode only if one of them does so alone. */
  lemma {:induction false} RuleFlagsBoth(sets: RuleSets, s: Tag, m: Metadata, t: Tag, n: Metadata, rule: RawRule)
    requires RuleFlags(sets[s := m], rule).Ok? && RuleFlags(sets[t := n], rule).Ok?
    ensures RuleFlags(Both(sets, s, m, t, n), rule).Ok?
    ensures
      var both := RuleFlags(Both(sets, s, m, t, n), rule).value;
      var one, other := RuleFlags(sets[s := m], rule).value, RuleFlags(sets[t := n], rule).value;
      (both.disabled ==> one.disabled || other.disabled) && both.strategy == one.strategy == other.strategy
  {
    match rule
    case Default(cond, act) =>
      var f := Flags(ConditionDisables(cond, act) || ActionDisables(act), ConditionNeeds(cond) || HasStrategy(act), HasStrategy(act));
      RuleSetFlagsBoth(sets, s, m, t, n, cond.ruleSets, cond.matchSource, f, f, f);
    case Logical(rules, _) => SubFlagsBoth(sets, s, m, t, n, rules);
  }

  lemma {:induction false} SubFlagsBoth(sets: RuleSets, s: Tag, m: Metadata, t: Tag, n: Metadata, rules: seq<RawRule>)
    requires SubFlags(sets[s := m], rules).Ok? && SubFlags(sets[t := n], rules).Ok?
    ensures SubFlags(Both(sets, s, m, t, n), rules).Ok?
    ensures
      var both := SubFlags(Both(sets, s, m, t, n), rules).value;
      var one, other := SubFlags(sets[s := m], rules).value, SubFlags(sets[t := n], rules).value;
      (both.disabled ==> one.disabled || other.disabled) && both.strategy == one.strategy == other.strategy
  {
    if rules != [] {
      RuleFlagsBoth(sets, s, m, t, n, rules[0]);
      SubFlagsBoth(sets, s, m, t, n, rules[1..]);
    }
  }

  lemma {:induction false} RuleSetFlawBoth(sets: RuleSets, s: Tag, m: Metadata, t: Tag, n: Metadata, tags: seq<Tag>)
    requires V.RuleSetFlaw(sets[s := m], tags).None? && V.RuleSetFlaw(sets[t := n], tags).None?
    ensures V.RuleSetFlaw(Both(sets, s, m, t, n), tags).None?
  {
    if tags != [] {
      RuleSetFlawBoth(sets, s, m, t, n, tags[1..]);
    }
  }

  /** A rule that passes with either update passes with both, and reads the same responses. */
  lemma {:induction false} TreeUseBoth(sets: RuleSets, s: Tag, m: Metadata, t: Tag, n: Metadata, rule: RawRule)
    requires V.TreeUse(sets[s := m], rule).Ok? && V.TreeUse(sets[t := n], rule).Ok?
    ensures V.TreeUse(Both(sets, s, m, t, n), rule) == V.TreeUse(sets[s := m], rule)
  {
    match rule
    case Default(cond, _) =>
      if cond.response.Unset? {
        RuleSetFlawBoth(sets, s, m, t, n, cond.ruleSets);
      }
    case Logical(rules, _) => TreesUseBoth(sets, s, m, t, n, rules);
  }

  lemma {:induction false} TreesUseBoth(sets: RuleSets, s: Tag, m: Metadata, t: Tag, n: Metadata, rules: seq<RawRule>)
    requires V.TreesUse(sets[s := m], rules).Ok? && V.TreesUse(sets[t := n], rules).Ok?
    ensures V.TreesUse(Both(sets, s, m, t, n), rules) == V.TreesUse(sets[s := m], rules)
  {
    if rules != [] {
      TreeUseBoth(sets, s, m, t, n, rules[0]);
      TreesUseBoth(sets, s, m, t, n, rules[1..]);
    }
  }

  lemma AcceptedBoth(sets: RuleSets, s: Tag, m: Metadata, t: Tag, n: Metadata, rules: seq<RawRule>)
    requires V.Accepted(sets[s := m], rules) && V.Accepted(sets[t := n], rules)
    ensures V.Accepted(Both(sets, s, m, t, n), rules)
  {
    forall i | 0 <= i < |rules|
      ensures V.RuleAccepted(Both(sets, s, m, t, n), rules, i)
    {
      assert V.RuleAccepted(sets[s := m], rules, i) && V.RuleAccepted(sets[t := n], rules, i);
      TreeUseBoth(sets, s, m, t, n, rules[i]);
    }
  }

  /** Everything of soundness except, outside legacy mode, that the rules do not need legacy mode. */
  ghost predicate NearlySound(rules: seq<RawRule>, sets: RuleSets, legacy: bool) {
    && SubFlags(sets, rules).Ok?
    && var flags := SubFlags(sets, rules).value;
       && !(flags.disabled && flags.strategy)
       && (legacy ==> !flags.disabled)
       && (!legacy ==> V.Accepted(sets, rules))
  }

  lemma NearlySoundBoth(rules: seq<RawRule>, sets: RuleSets, legacy: bool, s: Tag, m: Metadata, t: Tag, n: Metadata)
    requires NearlySound(rules, sets[s := m], legacy) && NearlySound(rules, sets[t := n], legacy)
    ensures NearlySound(rules, Both(sets, s, m, t, n), legacy)
  {
    SubFlagsBoth(sets, s, m, t, n, rules);
    if !legacy {
      AcceptedBoth(sets, s, m, t, n, rules);
    }
  }

  ghost predicate Expecting(rules: seq<RawRule>, s: Running) {
    && NearlySound(rules, s.sets, s.legacy)
    && forall tag :: tag in s.checked ==> NearlySound(rules, s.sets[tag := s.checked[tag]], s.legacy)
  }

  lemma ExpectingStep(rules: seq<RawRule>, s: Running, u: Update)
    requires Expecting(rules, s) && Possible(rules, s, u)
    ensures Expecting(rules, After(s, u))
  {
    var t := After(s, u);
    if u.Replace? {
      forall tag | tag in t.checked
        ensures NearlySound(rules, t.sets[tag := t.checked[tag]], t.legacy)
      {
        NearlySoundBoth(rules, s.sets, s.legacy, u.tag, s.checked[u.tag], tag, s.checked[tag]);
      }
    }
  }

  lemma {:induction false} ExpectingRun(rules: seq<RawRule>, s: Running, updates: seq<Update>, t: Running)
    requires Expecting(rules, s) && UpdateRun(rules, s, updates, t)
    ensures Expecting(rules, t) && t.legacy == s.legacy
    decreases |updates|
  {
    if updates != [] {
      ExpectingStep(rules, s, updates[0]);
      ExpectingRun(rules, After(s, updates[0]), updates[1..], t);
    }
  }

  /**
   However updates overlap: in legacy mode the router stays sound, and outside legacy mode it is unsound exactly when
   the rules have come to need legacy mode without anything disabling it.
   */
  lemma OverlappingUpdates(rules: seq<RawRule>, s: Running, updates: seq<Update>, t: Running)
    requires Sound(rules, s.sets, s.legacy) && s.checked == map[] && UpdateRun(rules, s, updates, t)
    ensures SubFlags(t.sets, rules).Ok?
    ensures Sound(rules, t.sets, t.legacy) <==>
      t.legacy || !SubFlags(t.sets, rules).value.needed || SubFlags(t.sets, rules).value.disabled
  {
    ExpectingRun(rules, s, updates, t);
  }

  /** The router could start with these rule sets. */
  ghost predicate Startable(rules: seq<RawRule>, sets: RuleSets) {
    exists legacy :: ResolveMode(sets, rules) == Ok(legacy) && Sound(rules, sets, legacy)
  }

  /**
   An update checked before the start and made after it leaves the mode sound exactly when, in legacy mode, nothing
   disables it, and otherwise the mode comes out the same with the update.
   */
  lemma CheckedBeforeStart(rules: seq<RawRule>, sets: RuleSets, legacy: bool, tag: Tag, metadata: Metadata)
    requires ResolveMode(sets, rules) == Ok(legacy) && Sound(rules, sets, legacy) && Startable(rules, sets[tag := metadata])
    ensures SubFlags(sets[tag := metadata], rules).Ok?
    ensures Sound(rules, sets[tag := metadata], legacy) <==>
      if legacy then !SubFlags(sets[tag := metadata], rules).value.disabled else ResolveMode(sets[tag := metadata], rules) == Ok(false)
  {
    var resolved :| ResolveMode(sets[tag := metadata], rules) == Ok(resolved) && Sound(rules, sets[tag := metadata], resolved);
  }

  /** The router starts outside legacy mode, and an update that passed its check before that leaves the mode unsound. */
  ghost predicate BreaksAtStart(rules: seq<RawRule>, sets: RuleSets, tag: Tag, metadata: Metadata) {
    && ResolveMode(sets, rules) == Ok(false) && Sound(rules, sets, false)
    && Startable(rules, sets[tag := metadata]) && !Sound(rules, sets[tag := metadata], false)
  }

  /** Such an update alone can leave rules that need legacy mode outside it. */
  lemma StartCanBreak()
    ensures exists rules, sets, tag, metadata :: BreaksAtStart(rules, sets, tag, metadata)
  {
    var act := RawAction(Route(Tag("dns"), false, RouteOptions(false, false, None, 0, None, false)), false, false);
    var a, b := Tag("a"), Tag("b");
    assert a != b by { assert a.name[0] != b.name[0]; }
    var rules := [Default(Condition(Unset, false, false, false, false, [a], false, false, false, false), act),
                  Default(Condition(Unset, false, false, false, false, [b], false, false, false, false), act)];
    var none, mixed := Metadata(false, true, false), Metadata(true, true, false);
    var sets := map[a := none, b := none];
    PlainFlags(act, a, b, sets);
    PlainFlags(act, a, b, sets[a := mixed]);
    assert Sound(rules, sets[a := mixed], true);
    assert BreaksAtStart(rules, sets, a, mixed);
  }

  /** Two overlapping updates, each of which passes its check, can leave rules that need legacy mode outside it. */
  lemma OverlapCanBreak()
    ensures exists rules, s: Running, updates, t: Running ::
      && Sound(rules, s.sets, s.legacy) && s.checked == map[]
      && UpdateRun(rules, s, updates, t) && !Sound(rules, t.sets, t.legacy)
  {
    var plain := RouteOptions(false, false, None, 0, None, false);
    var act := RawAction(Route(Tag("dns"), false, plain), false, false);
    var a, b := Tag("a"), Tag("b");
    var onA := Default(Condition(Unset, false, false, false, false, [a], false, false, false, false), act);
    var onB := Default(Condition(Unset, false, false, false, false, [b], false, false, false, false), act);
    var rules := [onA, onB];
    var types, none, mixed := Metadata(false, true, true), Metadata(false, true, false), Metadata(true, true, false);
    var s := Running(map[a := types, b := none], false, map[]);
    assert a != b by { assert a.name[0] != b.name[0]; }
    PlainFlags(act, a, b, map[a := types, b := none]);
    PlainFlags(act, a, b, map[a := none, b := none]);
    PlainFlags(act, a, b, map[a := types, b := mixed]);
    PlainFlags(act, a, b, map[a := none, b := mixed]);
    var s1 := After(s, Check(a, none));
    var s2 := After(s1, Check(b, mixed));
    var s3 := After(s2, Replace(a));
    var t := After(s3, Replace(b));
    assert s.sets[a := none] == map[a := none, b := none];
    assert s.sets[b := mixed] == map[a := types, b := mixed];
    assert t.sets == map[a := none, b := mixed];
    var updates := [Check(a, none), Check(b, mixed), Replace(a), Replace(b)];
    assert UpdateRun(rules, t, [], t);
    assert UpdateRun(rules, s3, updates[3..], t) by { assert updates[3..] == [Replace(b)] && updates[3..][1..] == []; }
    assert UpdateRun(rules, s2, updates[2..], t) by { assert updates[2..][1..] == updates[3..]; }
    assert UpdateRun(rules, s1, updates[1..], t) by { assert updates[1..][1..] == updates[2..]; }
    assert UpdateRun(rules, s, updates, t);
  }

  /** The two rules of the example, over any metadata of their rule sets. */
  lemma PlainFlags(act: RawAction, a: Tag, b: Tag, sets: RuleSets)
    requires act == RawAction(act.action, false, false) && act.action.Route? && !act.action.speculative && !act.action.opts.disableOptimistic
    requires a in sets && b in sets && sets[a].nonIPCIDR && sets[b].nonIPCIDR
    ensures
      var rules := [Default(Condition(Unset, false, false, false, false, [a], false, false, false, false), act),
                    Default(Condition(Unset, false, false, false, false, [b], false, false, false, false), act)];
      && SubFlags(sets, rules) == Ok(Flags(sets[a].queryType || sets[b].queryType, sets[a].ipCIDR || sets[b].ipCIDR, false))
      && V.Accepted(sets, rules)
  {
    var onA := Default(Condition(Unset, false, false, false, false, [a], false, false, false, false), act);
    var onB := Default(Condition(Unset, false, false, false, false, [b], false, false, false, false), act);
    OneFlags(act, a, sets);
    OneFlags(act, b, sets);
    assert [onA, onB][1..] == [onB] && [onB][1..] == [];
    assert SubFlags(sets, [onB]) == Ok(RuleFlags(sets, onB).value);
  }

  lemma OneFlags(act: RawAction, a: Tag, sets: RuleSets)
    requires act == RawAction(act.action, false, false) && act.action.Route? && !act.action.speculative && !act.action.opts.disableOptimistic
    requires a in sets && sets[a].nonIPCIDR
    ensures
      var rule := Default(Condition(Unset, false, false, false, false, [a], false, false, false, false), act);
      && RuleFlags(sets, rule) == Ok(Flags(sets[a].queryType, sets[a].ipCIDR, false))
      && V.TreeUse(sets, rule) == Ok(V.Use(false, []))
  {
    assert [a][1..] == [];
    assert V.RuleSetFlaw(sets, [a]).None?;
    assert RuleSetFlags(sets, [a], false, NoFlags) == Ok(Flags(sets[a].queryType, sets[a].ipCIDR, false));
  }
}
