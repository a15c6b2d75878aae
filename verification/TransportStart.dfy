/** The DNS transport manager: registering servers, and starting them in the order of their dependencies. */
module TransportStart {
  import opened Wrappers
  import opened DnsTypes

  /** A server with the tags of the servers it needs. */
  datatype Server = Server(tag: Tag, fakeIP: bool, needs: seq<Tag>)

  datatype StartResult =
    | AllStarted
    | StartFailed(tag: Tag)
    | Circular(path: seq<Tag>, again: Tag)
    | Missing(tag: Tag, neededBy: Tag)

  // ---------------------------------------------------------------- the dependency graph

  predicate DistinctTags(servers: seq<Server>) {
    forall i, j :: 0 <= i < j < |servers| ==> servers[i].tag != servers[j].tag
  }

  function TagSet(servers: seq<Server>): set<Tag> {
    set s | s in servers :: s.tag
  }

  ghost predicate Needs(servers: seq<Server>, tag: Tag, dep: Tag) {
    exists s :: s in servers && s.tag == tag && dep in s.needs
  }

  /** Every dependency is a server. */
  ghost predicate Complete(servers: seq<Server>) {
    forall tag, dep :: Needs(servers, tag, dep) ==> dep in TagSet(servers)
  }

  /** Each server of the path needs the next. */
  ghost predicate Chain(servers: seq<Server>, path: seq<Tag>) {
    forall k :: 0 <= k < |path| - 1 ==> Needs(servers, path[k], path[k + 1])
  }

  /** A chain that ends where it began. */
  ghost predicate Cycle(servers: seq<Server>, path: seq<Tag>) {
    |path| > 0 && Chain(servers, path) && Needs(servers, path[|path| - 1], path[0])
  }

  ghost predicate Acyclic(servers: seq<Server>) {
    forall path :: !Cycle(servers, path)
  }

  // ---------------------------------------------------------------- starting order

  /** The servers started so far: each once, each after everything it needs. */
  ghost predicate StartOrder(servers: seq<Server>, order: seq<Tag>) {
    && (forall i, j :: 0 <= i < j < |order| ==> order[i] != order[j])
    && (forall i :: 0 <= i < |order| ==> order[i] in TagSet(servers))
    && (forall i, dep :: 0 <= i < |order| && Needs(servers, order[i], dep) ==> dep in order[..i])
  }

  lemma ChainSuffix(servers: seq<Server>, path: seq<Tag>, k: nat)
    requires Chain(servers, path) && k < |path|
    ensures Chain(servers, path[k..])
  {
    forall m | 0 <= m < |path[k..]| - 1
      ensures Needs(servers, path[k..][m], path[k..][m + 1])
    {
      assert Needs(servers, path[k + m], path[k + m + 1]);
    }
  }

  lemma NeedsIsServer(servers: seq<Server>, tag: Tag, dep: Tag)
    requires Needs(servers, tag, dep)
    ensures tag in TagSet(servers)
  {
  }

  /** A chain leads from a started server only to servers that were started before it. */
  lemma {:induction false} ChainGoesBack(servers: seq<Server>, order: seq<Tag>, path: seq<Tag>, i: nat) returns (j: nat)
    requires StartOrder(servers, order) && Chain(servers, path) && |path| > 0 && i < |order| && order[i] == path[0]
    ensures j <= i && order[j] == path[|path| - 1]
    decreases |path|
  {
    if |path| == 1 {
      j := i;
    } else {
      assert Needs(servers, order[i], path[1]);
      var k :| 0 <= k < i && order[k] == path[1];
      ChainSuffix(servers, path, 1);
      j := ChainGoesBack(servers, order, path[1..], k);
    }
  }

  /** If everything can be started in order, there is no cycle. */
  lemma NotACycle(servers: seq<Server>, order: seq<Tag>, path: seq<Tag>)
    requires StartOrder(servers, order) && forall t :: t in TagSet(servers) ==> t in order
    ensures !Cycle(servers, path)
  {
    if Cycle(servers, path) {
      NeedsIsServer(servers, path[0], if |path| == 1 then path[0] else path[1]);
      var i :| 0 <= i < |order| && order[i] == path[0];
      var j := ChainGoesBack(servers, order, path, i);
      assert false;
    }
  }

  lemma StartedIsAcyclic(servers: seq<Server>, order: seq<Tag>)
    requires StartOrder(servers, order) && forall t :: t in TagSet(servers) ==> t in order
    ensures Acyclic(servers) && Complete(servers)
  {
    forall path ensures !Cycle(servers, path) {
      NotACycle(servers, order, path);
    }
    forall tag, dep | Needs(servers, tag, dep)
      ensures dep in TagSet(servers)
    {
      NeedsIsServer(servers, tag, dep);
      var i :| 0 <= i < |order| && order[i] == tag;
      assert dep in order[..i];
    }
  }

  // ---------------------------------------------------------------- diagnosis

  /** The table of servers by tag. */
  ghost predicate TableOf(table: map<Tag, Server>, servers: seq<Server>) {
    && (forall s :: s in servers ==> s.tag in table && table[s.tag] == s)
    && (forall t :: t in table ==> table[t] in servers && table[t].tag == t)
  }

  /** No server can be started next: each one left needs another that is not started. */
  ghost predicate Stalled(servers: seq<Server>, started: set<Tag>) {
    forall s :: s in servers && s.tag !in started ==> exists dep :: dep in s.needs && dep !in started
  }

  /** What a diagnosis says is so. */
  ghost predicate Genuine(servers: seq<Server>, result: StartResult) {
    match result
    case Circular(path, again) =>
      && |path| > 0 && Chain(servers, path) && Needs(servers, path[|path| - 1], again)
      && exists k :: 0 <= k < |path| && path[k] == again && Cycle(servers, path[k..])
    case Missing(tag, neededBy) => neededBy in TagSet(servers) && Needs(servers, neededBy, tag) && tag !in TagSet(servers)
    case AllStarted => false
    case StartFailed(_) => false
  }

  lemma CycleFound(servers: seq<Server>, path: seq<Tag>, again: Tag)
    requires |path| > 0 && Chain(servers, path) && Needs(servers, path[|path| - 1], again) && again in path
    ensures exists k :: 0 <= k < |path| && path[k] == again && Cycle(servers, path[k..])
  {
    var k :| 0 <= k < |path| && path[k] == again;
    ChainSuffix(servers, path, k);
    assert Cycle(servers, path[k..]);
  }

  function FirstUnstarted(tags: seq<Tag>, started: set<Tag>): Tag
    requires exists t :: t in tags && t !in started
    ensures FirstUnstarted(tags, started) in tags && FirstUnstarted(tags, started) !in started
  {
    if tags[0] !in started then tags[0] else
      assert forall t :: t in tags && t !in started ==> t in tags[1..];
      FirstUnstarted(tags[1..], started)
  }

  predicate DistinctPath(path: seq<Tag>) {
    forall i, j :: 0 <= i < j < |path| ==> path[i] != path[j]
  }

  lemma {:induction false} PathFits(path: seq<Tag>, tags: set<Tag>)
    requires DistinctPath(path) && forall t :: t in path ==> t in tags
    ensures |path| <= |tags|
  {
    if |path| > 0 {
      var last, init := path[|path| - 1], path[..|path| - 1];
      assert forall t :: t in init ==> t in tags - {last};
      PathFits(init, tags - {last});
    }
  }

  /** Follows unstarted dependencies from a server that cannot start, until it meets a repeated or a missing one. */
  method Lint(table: map<Tag, Server>, servers: seq<Server>, started: set<Tag>, path: seq<Tag>, current: Server)
    returns (result: StartResult)
    requires TableOf(table, servers) && Stalled(servers, started)
    requires |path| > 0 && path[|path| - 1] == current.tag && current in servers && current.tag !in started
    requires Chain(servers, path) && DistinctPath(path) && forall t :: t in path ==> t in table
    ensures Genuine(servers, result)
    decreases |table| - |path|
  {
    PathFits(path, table.Keys);
    var problem := FirstUnstarted(current.needs, started);
    assert Needs(servers, current.tag, problem);
    if problem in path {
      CycleFound(servers, path, problem);
      return Circular(path, problem);
    }
    if problem !in table {
      return Missing(problem, current.tag);
    }
    var longer := path + [problem];
    PathFits(longer, table.Keys);
    result := Lint(table, servers, started, longer, table[problem]);
  }

  // ---------------------------------------------------------------- starting all servers

  lemma TagSetOf(servers: seq<Server>, s: Server)
    requires s in servers
    ensures s.tag in TagSet(servers)
  {
  }

  lemma {:induction false} TagCount(servers: seq<Server>)
    requires DistinctTags(servers)
    ensures |TagSet(servers)| == |servers|
  {
    if servers == [] {
      assert TagSet(servers) == {};
    } else {
      var last, init := servers[|servers| - 1], servers[..|servers| - 1];
      assert servers == init + [last];
      assert TagSet(servers) == TagSet(init) + {last.tag};
      assert last.tag !in TagSet(init);
      TagCount(init);
    }
  }

  /** Starting one more server whose dependencies are started. */
  lemma StartNext(servers: seq<Server>, order: seq<Tag>, s: Server)
    requires StartOrder(servers, order) && DistinctTags(servers) && s in servers && s.tag !in order
    requires forall dep :: dep in s.needs ==> dep in order
    ensures StartOrder(servers, order + [s.tag])
  {
    var next := order + [s.tag];
    TagSetOf(servers, s);
    forall i, dep | 0 <= i < |next| && Needs(servers, next[i], dep)
      ensures dep in next[..i]
    {
      if i < |order| {
        assert next[..i] == order[..i];
      } else {
        assert next[..i] == order;
        var q :| q in servers && q.tag == next[i] && dep in q.needs;
        assert q == s;
      }
    }
  }

  function TagsIn(order: seq<Tag>): set<Tag> {
    set t | t in order
  }

  method DependenciesStarted(needs: seq<Tag>, started: set<Tag>) returns (ready: bool)
    ensures ready <==> forall dep :: dep in needs ==> dep in started
  {
    for k := 0 to |needs|
      invariant forall j :: 0 <= j < k ==> needs[j] in started
    {
      if needs[k] !in started {
        return false;
      }
    }
    return true;
  }

  /** A pass over the servers left every server before position n started or held up. */
  ghost predicate HeldUp(servers: seq<Server>, n: nat, started: set<Tag>)
    requires n <= |servers|
  {
    forall j :: 0 <= j < n && servers[j].tag !in started ==> exists dep :: dep in servers[j].needs && dep !in started
  }

  /** One pass: starts every server whose dependencies are started by then. */
  method StartPass(servers: seq<Server>, starts: Tag -> bool, before: seq<Tag>)
    returns (order: seq<Tag>, failed: Option<Tag>)
    requires DistinctTags(servers) && StartOrder(servers, before)
    ensures StartOrder(servers, order) && before <= order
    ensures failed.Some? ==> failed.value in order && !starts(failed.value)
    ensures failed.None? ==> forall t :: t in order && t !in before ==> starts(t)
    ensures failed.None? && order == before ==> HeldUp(servers, |servers|, TagsIn(order))
  {
    order, failed := before, None;
    for i := 0 to |servers|
      invariant StartOrder(servers, order) && before <= order
      invariant forall t :: t in order && t !in before ==> starts(t)
      invariant order == before ==> HeldUp(servers, i, TagsIn(order))
    {
      var s := servers[i];
      if s.tag !in order {
        var ready := DependenciesStarted(s.needs, TagsIn(order));
        if ready {
          StartNext(servers, order, s);
          order := order + [s.tag];
          if !starts(s.tag) {
            return order, Some(s.tag);
          }
        }
      }
    }
  }

  /**
   Starts all servers. With distinct tags and no server failing by itself, it succeeds exactly when every dependency
   exists and there is no cycle; otherwise the diagnosis is genuine.
   */
  method StartTransports(servers: seq<Server>, table: map<Tag, Server>, starts: Tag -> bool)
    returns (order: seq<Tag>, result: StartResult)
    requires DistinctTags(servers) && TableOf(table, servers)
    ensures StartOrder(servers, order)
    ensures result.AllStarted? ==> TagsIn(order) == TagSet(servers) && |order| == |servers| && forall t :: t in order ==> starts(t)
    ensures result.StartFailed? ==> result.tag in order && !starts(result.tag)
    ensures result.Circular? || result.Missing? ==> Genuine(servers, result)
    ensures (forall t :: t in TagSet(servers) ==> starts(t)) ==> (result.AllStarted? <==> Complete(servers) && Acyclic(servers))
  {
    order := [];
    while true
      invariant StartOrder(servers, order) && forall t :: t in order ==> starts(t)
      decreases TagSet(servers) - TagsIn(order)
    {
      var next, failed := StartPass(servers, starts, order);
      if failed.Some? {
        return next, StartFailed(failed.value);
      }
      OrderSize(servers, next);
      if |next| == |servers| {
        AllInOrder(servers, next);
        StartedIsAcyclic(servers, next);
        return next, AllStarted;
      }
      if next == order {
        var current := FindUnstarted(servers, next);
        HeldUpIsStalled(servers, TagsIn(next));
        TagSetOf(servers, current);
        var diagnosis := Lint(table, servers, TagsIn(next), [current.tag], current);
        GenuineIsFault(servers, diagnosis);
        return next, diagnosis;
      }
      Progress(servers, order, next);
      order := next;
    }
  }

  lemma OrderSize(servers: seq<Server>, order: seq<Tag>)
    requires StartOrder(servers, order) && DistinctTags(servers)
    ensures |TagsIn(order)| == |order| <= |servers|
    ensures TagsIn(order) <= TagSet(servers)
  {
    SizeOf(order);
    TagCount(servers);
    PathFits(order, TagSet(servers));
  }

  lemma {:induction false} SizeOf(order: seq<Tag>)
    requires DistinctPath(order)
    ensures |TagsIn(order)| == |order|
  {
    if |order| > 0 {
      var last, init := order[|order| - 1], order[..|order| - 1];
      assert order == init + [last];
      assert TagsIn(order) == TagsIn(init) + {last};
      SizeOf(init);
    }
  }

  lemma AllInOrder(servers: seq<Server>, order: seq<Tag>)
    requires StartOrder(servers, order) && DistinctTags(servers) && |order| == |servers|
    ensures TagsIn(order) == TagSet(servers)
  {
    OrderSize(servers, order);
    TagCount(servers);
    SubsetSameSize(TagsIn(order), TagSet(servers));
  }

  lemma SubsetSameSize(a: set<Tag>, b: set<Tag>)
    requires a <= b && |a| == |b|
    ensures a == b
  {
    assert |b - a| == |b| - |a|;
  }

  lemma Progress(servers: seq<Server>, order: seq<Tag>, next: seq<Tag>)
    requires StartOrder(servers, next) && order <= next && next != order
    ensures TagSet(servers) - TagsIn(next) < TagSet(servers) - TagsIn(order)
  {
    var t := next[|order|];
    assert forall k :: 0 <= k < |order| ==> order[k] == next[k] && next[k] != t;
    assert forall u :: u in order ==> u in next;
    assert t in TagSet(servers) - TagsIn(order) && t !in TagSet(servers) - TagsIn(next);
  }

  lemma SubsetSize(a: set<Tag>, b: set<Tag>)
    requires a <= b
    ensures |a| <= |b|
  {
    assert |b - a| == |b| - |a|;
  }

  lemma UnstartedIndex(servers: seq<Server>, order: seq<Tag>) returns (i: nat)
    requires StartOrder(servers, order) && DistinctTags(servers) && |order| < |servers|
    ensures i < |servers| && servers[i].tag !in order
  {
    if exists k :: 0 <= k < |servers| && servers[k].tag !in order {
      i :| 0 <= i < |servers| && servers[i].tag !in order;
    } else {
      OrderSize(servers, order);
      TagCount(servers);
      SubsetSize(TagSet(servers), TagsIn(order));
      assert false;
    }
  }

  method FindUnstarted(servers: seq<Server>, order: seq<Tag>) returns (s: Server)
    requires StartOrder(servers, order) && DistinctTags(servers) && |order| < |servers|
    ensures s in servers && s.tag !in order
  {
    ghost var i := UnstartedIndex(servers, order);
    var k := 0;
    while servers[k].tag in order
      invariant k <= i
      decreases i - k
    {
      k := k + 1;
    }
    return servers[k];
  }

  lemma HeldUpIsStalled(servers: seq<Server>, started: set<Tag>)
    requires HeldUp(servers, |servers|, started)
    ensures Stalled(servers, started)
  {
  }

  lemma GenuineIsFault(servers: seq<Server>, result: StartResult)
    requires Genuine(servers, result)
    ensures !Complete(servers) || !Acyclic(servers)
  {
  }

  // ---------------------------------------------------------------- the manager

  datatype CreateResult = Created | InvalidTag | DuplicateTag | FakeIPDefault | SecondFakeIP

  class Manager {
    const defaultTag: Tag
    var transports: seq<Server>
    var table: map<Tag, Server>
    var default_: Option<Server>
    var fakeIP: Option<Server>

    /** Tags are distinct, the table lists the servers, and there is a default as soon as one could be chosen. */
    ghost predicate Valid()
      reads this
    {
      && DistinctTags(transports) && TableOf(table, transports)
      && (defaultTag == Untagged && transports != [] ==> default_.Some?)
      && (default_.Some? ==> default_.value in transports)
    }

    /** No server but the recorded one hands out fake addresses. */
    ghost predicate OneFakeIP()
      reads this
    {
      forall s <- transports :: s.fakeIP ==> fakeIP == Some(s)
    }

    /** The server would become the default. */
    predicate Chosen(server: Server)
      reads this
    {
      server.tag == defaultTag || (defaultTag == Untagged && default_.None?)
    }

    constructor (defaultTag: Tag)
      ensures Valid() && OneFakeIP() && this.defaultTag == defaultTag && transports == [] && default_ == None && fakeIP == None
    {
      this.defaultTag := defaultTag;
      transports, table, default_, fakeIP := [], map[], None, None;
    }

    /** Registers a server. A refusal over fake addresses comes too late to keep the server off the list. */
    method Create(server: Server) returns (result: CreateResult)
      requires Valid()
      modifies this
      ensures result.InvalidTag? <==> server.tag == Untagged
      ensures result.DuplicateTag? <==> server.tag != Untagged && server.tag in TagSet(old(transports))
      ensures
        var added := server.tag != Untagged && server.tag !in TagSet(old(transports));
        && (result.FakeIPDefault? <==> added && server.fakeIP && old(Chosen(server)))
        && (result.SecondFakeIP? <==> added && server.fakeIP && !old(Chosen(server)) && old(fakeIP).Some?)
        && transports == old(transports) + (if added then [server] else [])
      ensures default_ == if result.Created? && old(Chosen(server)) then Some(server) else old(default_)
      ensures fakeIP == if result.Created? && server.fakeIP then Some(server) else old(fakeIP)
      ensures !result.FakeIPDefault? ==> Valid()
      ensures result.Created? && old(OneFakeIP()) ==> OneFakeIP()
    {
      if server.tag == Untagged {
        return InvalidTag;
      }
      if server.tag in table {
        return DuplicateTag;
      }
      transports := transports + [server];
      table := table[server.tag := server];
      if server.tag == defaultTag || (defaultTag == Untagged && default_.None?) {
        if server.fakeIP {
          return FakeIPDefault;
        }
        default_ := Some(server);
      }
      if server.fakeIP {
        if fakeIP.Some? {
          return SecondFakeIP;
        }
        fakeIP := Some(server);
      }
      return Created;
    }

    /** Settles the default server. The fallback joins an empty list, so it cannot clash with another tag. */
    method Initialize(fallback: Option<Server>) returns (ok: bool)
      requires Valid()
      modifies this
      ensures Valid()
      ensures ok <==> old(default_).Some? || (defaultTag == Untagged && fallback.Some?)
      ensures default_ == if ok && old(default_).None? then fallback else old(default_)
      ensures transports == old(transports) || (old(transports) == [] && ok && transports == [fallback.value])
    {
      if defaultTag != Untagged && default_.None? {
        return false;
      }
      if default_.None? {
        if fallback.None? {
          return false;
        }
        transports := transports + [fallback.value];
        table := table[fallback.value.tag := fallback.value];
        default_ := fallback;
      }
      return true;
    }

    method StartAll(starts: Tag -> bool) returns (order: seq<Tag>, result: StartResult)
      requires Valid()
      ensures StartOrder(transports, order)
      ensures result.AllStarted? ==> TagsIn(order) == TagSet(transports)
      ensures result.Circular? || result.Missing? ==> Genuine(transports, result)
      ensures (forall t :: t in TagSet(transports) ==> starts(t)) ==> (result.AllStarted? <==> Complete(transports) && Acyclic(transports))
    {
      order, result := StartTransports(transports, table, starts);
    }
  }
}
