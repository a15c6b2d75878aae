/** Values shared by the models of the DNS router: transports, query options and rules. */
module DnsTypes {
  import opened Wrappers

  /** A DNS response. The rule walk only stores and compares responses, so a number stands for one. */
  type Msg = int

  /** A client subnet: an address and a prefix length. */
  datatype Subnet = Subnet(address: seq<bv8>, bits: nat)

  /** The name of a server or of an evaluated response. The empty string in the configuration is `Untagged`. */
  datatype Tag = Untagged | Tag(name: string)

  datatype Transport = Transport(tag: Tag, fakeIP: bool)

  datatype Strategy = AsIs | PreferIPv4 | PreferIPv6 | IPv4Only | IPv6Only

  /** The options of one DNS query, as they accumulate along the rule list. */
  datatype QueryOptions = QueryOptions(
    strategy: Strategy,
    disableCache: bool,
    disableOptimistic: bool,
    rewriteTTL: Option<nat>,
    timeout: int,
    clientSubnet: Option<Subnet>,
    removeSubnet: bool)

  /** The options a rule action carries. */
  datatype RouteOptions = RouteOptions(
    disableCache: bool,
    disableOptimistic: bool,
    rewriteTTL: Option<nat>,
    timeout: int,
    clientSubnet: Option<Subnet>,
    removeSubnet: bool)

  datatype RejectMethod = RejectDefault | RejectDrop | RejectOther

  datatype Action =
    | SetOptions(opts: RouteOptions)
    | Evaluate(server: Tag, tag: Tag, speculative: bool, opts: RouteOptions)
    | Respond
    | Route(server: Tag, speculative: bool, opts: RouteOptions)
    | Reject(how: RejectMethod)
    | Predefined

  /** A compiled rule: the response it answers with, the responses it matches on, and its action. */
  datatype Rule = Rule(
    respondTag: Tag,
    tags: seq<Tag>,
    anonymous: bool,
    race: bool,
    action: Action)
  {
    predicate Binds() {
      |tags| > 0 || anonymous
    }

    /** The rule is judged in parallel instead of in order. */
    predicate Races() {
      race && Binds()
    }
  }

  /** What is sent to a server: the server and the final options. */
  datatype Query = Query(transport: Transport, options: QueryOptions)

  /** The responses a rule can see while it matches. An absent or failed response is None. */
  datatype View = View(named: map<Tag, Option<Msg>>, anonymous: Option<Msg>)

  /** What stays fixed during one exchange: the rules, the servers, and the answers the servers give. */
  datatype Config = Config(
    rules: seq<Rule>,
    transports: map<Tag, Transport>,
    fallback: Transport,
    allowFakeIP: bool,
    defaultStrategy: Strategy,
    initial: QueryOptions,
    matches: (nat, View) -> bool,
    answer: (nat, Query) -> Option<Msg>)

  /** How an exchange ends. */
  datatype Outcome =
    | Answered(rule: nat, response: Msg, transport: Transport)
    | MissingResponse(rule: nat)
    | Refused(rule: nat)
    | Dropped(rule: nat)
    | Canned(rule: nat)
    | Exchanged(rule: nat, query: Query, result: Option<Msg>)
    | Cancelled

  function ApplyOptions(o: QueryOptions, r: RouteOptions): QueryOptions {
    var o1 := if r.disableCache then o.(disableCache := true) else o;
    var o2 := if r.disableOptimistic then o1.(disableOptimistic := true) else o1;
    var o3 := if r.rewriteTTL.Some? then o2.(rewriteTTL := r.rewriteTTL) else o2;
    var o4 := if r.timeout > 0 then o3.(timeout := r.timeout) else o3;
    var o5 := if r.clientSubnet.Some? then o4.(clientSubnet := r.clientSubnet, removeSubnet := false) else o4;
    if r.removeSubnet then o5.(clientSubnet := None, removeSubnet := true) else o5
  }

  function FinalizeOptions(cfg: Config, o: QueryOptions): QueryOptions {
    if o.strategy == AsIs then o.(strategy := cfg.defaultStrategy) else o
  }

  function MakeQuery(cfg: Config, t: Transport, o: QueryOptions): Query {
    Query(t, FinalizeOptions(cfg, o))
  }

  /** The query of a route action, or None when the server is missing or a fake-IP server is not allowed here. */
  function ResolveRoute(cfg: Config, server: Tag, r: RouteOptions, o: QueryOptions): Option<Query> {
    if server !in cfg.transports then None
    else
      var t := cfg.transports[server];
      if t.fakeIP && !cfg.allowFakeIP then None
      else
        var o1 := ApplyOptions(o, r);
        Some(MakeQuery(cfg, t, if t.fakeIP then o1.(disableCache := true) else o1))
  }

  function BoundView(rule: Rule, named: map<Tag, Option<Msg>>, anonymous: Option<Msg>): View {
    View(map t | t in rule.tags :: if t in named then named[t] else None,
         if rule.anonymous then anonymous else None)
  }
}
