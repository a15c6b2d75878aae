/** DNS rules as configured: trees of conditions with an action, before they are compiled for the walk. */
module RuleOptions {
  import opened Wrappers
  import opened DnsTypes

  /** The `match_response` field: absent, enabled, or naming an evaluate tag. */
  datatype MatchResponse = Unset | Anonymous | Named(name: string)

  /** The parts of a default rule that the validator looks at. Other match items are not distinguished. */
  datatype Condition = Condition(
    response: MatchResponse,
    responseFields: bool,
    ipCIDR: bool,
    ipIsPrivate: bool,
    ipAcceptAny: bool,
    ruleSets: seq<Tag>,
    matchSource: bool,
    acceptEmpty: bool,
    ipVersion: bool,
    queryType: bool)

  /** An action with its `race` flag. `strategy`: the action sets a domain strategy. */
  datatype RawAction = RawAction(action: Action, race: bool, strategy: bool)

  datatype RawRule =
    | Default(cond: Condition, act: RawAction)
    | Logical(rules: seq<RawRule>, act: RawAction)

  /** What a rule set contains. */
  datatype Metadata = Metadata(ipCIDR: bool, nonIPCIDR: bool, queryType: bool)

  type RuleSets = map<Tag, Metadata>

  predicate IsEvaluate(rule: RawRule, tag: Tag) {
    rule.act.action.Evaluate? && rule.act.action.tag == tag
  }

  predicate IsSpeculative(rule: RawRule) {
    (rule.act.action.Evaluate? && rule.act.action.speculative) || (rule.act.action.Route? && rule.act.action.speculative)
  }

  // ---------------------------------------------------------------- compiling

  function TagOf(response: MatchResponse): Tag {
    if response.Named? then Tag(response.name) else Untagged
  }

  /** Drops repeated tags, keeping the first of each. */
  function Unique(tags: seq<Tag>): (r: seq<Tag>)
    ensures forall t :: t in r <==> t in tags
  {
    if tags == [] then []
    else
      var init := Unique(tags[..|tags| - 1]);
      var last := tags[|tags| - 1];
      assert tags == tags[..|tags| - 1] + [last];
      if last in init then init else init + [last]
  }

  function BoundTags(rule: RawRule): seq<Tag> {
    match rule
    case Default(cond, _) => if cond.response.Named? then [Tag(cond.response.name)] else []
    case Logical(rules, _) => Unique(AllBoundTags(rules))
  }

  function AllBoundTags(rules: seq<RawRule>): seq<Tag> {
    if rules == [] then [] else BoundTags(rules[0]) + AllBoundTags(rules[1..])
  }

  predicate BindsAnonymous(rule: RawRule) {
    match rule
    case Default(cond, _) => cond.response.Anonymous?
    case Logical(rules, _) => exists r <- rules :: BindsAnonymous(r)
  }

  /** The rule the walk runs. */
  function Compile(rule: RawRule): Rule {
    Rule(if rule.Default? then TagOf(rule.cond.response) else Untagged,
         BoundTags(rule), BindsAnonymous(rule), rule.act.race, rule.act.action)
  }

  function CompileAll(rules: seq<RawRule>): (r: seq<Rule>)
    ensures |r| == |rules|
    ensures forall i :: 0 <= i < |rules| ==> r[i] == Compile(rules[i])
  {
    if rules == [] then [] else [Compile(rules[0])] + CompileAll(rules[1..])
  }
}
