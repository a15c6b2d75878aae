/**
 Scopes of cleanups. A scope collects cleanups and child scopes, one per component started in it; closing it runs
 them in reverse order, closing the children on the way.

 The tree is a value here; a scope is named by the path of components that leads to it.
 */
module ScopeTree {
  import opened Wrappers

  /** A registered cleanup, or the child scope of a component at the place of its first start. */
  datatype Entry = Cleanup(id: nat) | Child(component: nat, scope: Scope)

  datatype Scope = Scope(closed: bool, entries: seq<Entry>)

  const NewScope := Scope(false, [])

  // ---------------------------------------------------------------- registration order

  /** The cleanups of a scope in the order of registration, each child at the place of its first start. */
  function Registered(s: Scope): seq<nat> {
    RegisteredIn(s.entries)
  }

  function RegisteredIn(entries: seq<Entry>): seq<nat> {
    if entries == [] then [] else OwnIds(entries[0]) + RegisteredIn(entries[1..])
  }

  function OwnIds(e: Entry): seq<nat> {
    match e
    case Cleanup(id) => [id]
    case Child(_, scope) => RegisteredIn(scope.entries)
  }

  function Reverse(s: seq<nat>): seq<nat> {
    if s == [] then [] else Reverse(s[1..]) + [s[0]]
  }

  lemma {:induction false} ReverseConcat(a: seq<nat>, b: seq<nat>)
    ensures Reverse(a + b) == Reverse(b) + Reverse(a)
  {
    if a == [] {
      assert a + b == b;
    } else {
      assert (a + b)[1..] == a[1..] + b;
      ReverseConcat(a[1..], b);
    }
  }

  lemma {:induction false} ReverseKeeps(s: seq<nat>)
    ensures multiset(Reverse(s)) == multiset(s)
  {
    if s != [] {
      assert s == [s[0]] + s[1..];
      ReverseKeeps(s[1..]);
    }
  }

  lemma {:induction false} RegisteredConcat(a: seq<Entry>, b: seq<Entry>)
    ensures RegisteredIn(a + b) == RegisteredIn(a) + RegisteredIn(b)
  {
    if a == [] {
      assert a + b == b;
    } else {
      assert (a + b)[1..] == a[1..] + b;
      RegisteredConcat(a[1..], b);
    }
  }

  // ---------------------------------------------------------------- closing

  /** How a cleanup ends: well, with an error that only says something was closed, or with a real error. */
  datatype Ending = Fine | AlreadyClosed | Error

  /** The cleanups among `ran` that ended with a real error, in order. */
  function Failures(ran: seq<nat>, ending: nat -> Ending): seq<nat> {
    if ran == [] then [] else (if ending(ran[0]).Error? then [ran[0]] else []) + Failures(ran[1..], ending)
  }

  lemma {:induction false} FailuresConcat(a: seq<nat>, b: seq<nat>, ending: nat -> Ending)
    ensures Failures(a + b, ending) == Failures(a, ending) + Failures(b, ending)
  {
    if a == [] {
      assert a + b == b;
    } else {
      var first := if ending(a[0]).Error? then [a[0]] else [];
      assert (a + b)[1..] == a[1..] + b;
      FailuresConcat(a[1..], b, ending);
      assert Failures(a + b, ending) == first + (Failures(a[1..], ending) + Failures(b, ending));
    }
  }

  /** Of the cleanups that ran, exactly those with a real error; that something was closed already is none. */
  lemma {:induction false} FailuresMeaning(ran: seq<nat>, ending: nat -> Ending, id: nat)
    ensures id in Failures(ran, ending) <==> id in ran && ending(id) != Fine && ending(id) != AlreadyClosed
  {
    if ran != [] {
      assert ran == [ran[0]] + ran[1..];
      FailuresMeaning(ran[1..], ending, id);
    }
  }

  /** What a close reports: a cleanup that failed, or one error for a child scope, with what failed in it. */
  datatype Failure = Own(id: nat) | InChild(component: nat, inner: seq<Failure>)

  /** The report of a close, from the entries of the scope: last registered first, one error for each that failed. */
  function Report(entries: seq<Entry>, ending: nat -> Ending): seq<Failure> {
    if entries == [] then [] else Report(entries[1..], ending) + OwnReport(entries[0], ending)
  }

  function OwnReport(e: Entry, ending: nat -> Ending): seq<Failure> {
    match e
    case Cleanup(id) => if ending(id).Error? then [Own(id)] else []
    case Child(component, scope) =>
      var inner := Report(scope.entries, ending);
      if inner == [] then [] else [InChild(component, inner)]
  }

  /** The cleanups behind a report. */
  function Culprits(report: seq<Failure>): seq<nat> {
    if report == [] then [] else CulpritsOf(report[0]) + Culprits(report[1..])
  }

  function CulpritsOf(f: Failure): seq<nat> {
    match f
    case Own(id) => [id]
    case InChild(_, inner) => Culprits(inner)
  }

  lemma {:induction false} CulpritsConcat(a: seq<Failure>, b: seq<Failure>)
    ensures Culprits(a + b) == Culprits(a) + Culprits(b)
  {
    if a == [] {
      assert a + b == b;
    } else {
      assert (a + b)[1..] == a[1..] + b;
      CulpritsConcat(a[1..], b);
    }
  }

  /** Behind the report are exactly the cleanups that ended with a real error, in the order they ran. */
  lemma {:induction false} ReportIsComplete(entries: seq<Entry>, ending: nat -> Ending)
    ensures Culprits(Report(entries, ending)) == Failures(Reverse(RegisteredIn(entries)), ending)
    decreases entries
  {
    if entries != [] {
      ReportIsComplete(entries[1..], ending);
      OwnReportIsComplete(entries[0], ending);
      CulpritsConcat(Report(entries[1..], ending), OwnReport(entries[0], ending));
      ReverseConcat(OwnIds(entries[0]), RegisteredIn(entries[1..]));
      FailuresConcat(Reverse(RegisteredIn(entries[1..])), Reverse(OwnIds(entries[0])), ending);
    }
  }

  lemma {:induction false} OwnReportIsComplete(e: Entry, ending: nat -> Ending)
    ensures Culprits(OwnReport(e, ending)) == Failures(Reverse(OwnIds(e)), ending)
    decreases e
  {
    match e
    case Cleanup(id) =>
      assert [id][1..] == [] && Reverse([id]) == [id];
      assert Failures([id], ending) == if ending(id).Error? then [id] else [];
      assert [Own(id)][1..] == [];
    case Child(component, scope) =>
      ReportIsComplete(scope.entries, ending);
      var inner := Report(scope.entries, ending);
      assert [InChild(component, inner)][1..] == [];
  }

  /** Runs every cleanup of the scope and its children, last registered first, whatever the others return. */
  method RunCleanups(entries: seq<Entry>, ending: nat -> Ending) returns (ran: seq<nat>, errors: seq<Failure>)
    ensures ran == Reverse(RegisteredIn(entries))
    ensures errors == Report(entries, ending) && Culprits(errors) == Failures(ran, ending)
    decreases entries
  {
    ran, errors := [], [];
    var k := |entries|;
    while k > 0
      invariant 0 <= k <= |entries|
      invariant ran == Reverse(RegisteredIn(entries[k..])) && errors == Report(entries[k..], ending)
    {
      k := k - 1;
      RegisteredStep(entries, k);
      var now, failed := RunEntry(entries[k], ending);
      ran, errors := ran + now, errors + failed;
    }
    assert entries[0..] == entries;
    ReportIsComplete(entries, ending);
  }

  /** Runs one cleanup. That of a child closes the child, and wraps what failed in it. */
  method RunEntry(e: Entry, ending: nat -> Ending) returns (ran: seq<nat>, errors: seq<Failure>)
    ensures ran == Reverse(OwnIds(e))
    ensures errors == OwnReport(e, ending)
    decreases e
  {
    match e
    case Cleanup(id) =>
      assert [id][1..] == [];
      return [id], if ending(id).Error? then [Own(id)] else [];
    case Child(component, scope) =>
      var inner: seq<Failure>;
      ran, inner := RunCleanups(scope.entries, ending);
      errors := if inner == [] then [] else [InChild(component, inner)];
  }

  lemma RegisteredStep(entries: seq<Entry>, k: nat)
    requires k < |entries|
    ensures Reverse(RegisteredIn(entries[k..])) == Reverse(RegisteredIn(entries[k + 1..])) + Reverse(OwnIds(entries[k]))
  {
    assert entries[k..][1..] == entries[k + 1..];
    ReverseConcat(OwnIds(entries[k]), RegisteredIn(entries[k + 1..]));
  }

  // ---------------------------------------------------------------- scopes by path

  function FindChild(entries: seq<Entry>, component: nat): Option<nat>
    ensures FindChild(entries, component).Some? ==>
      var k := FindChild(entries, component).value;
      k < |entries| && entries[k].Child? && entries[k].component == component
    ensures FindChild(entries, component).None? ==>
      forall k :: 0 <= k < |entries| ==> !(entries[k].Child? && entries[k].component == component)
  {
    if entries == [] then None
    else if entries[0].Child? && entries[0].component == component then Some(0)
    else
      var rest := FindChild(entries[1..], component);
      if rest.Some? then Some(rest.value + 1) else None
  }

  function ScopeAt(s: Scope, path: seq<nat>): Option<Scope>
    decreases |path|
  {
    if path == [] then Some(s)
    else
      var k := FindChild(s.entries, path[0]);
      if k.None? then None else ScopeAt(s.entries[k.value].scope, path[1..])
  }

  function Replace(s: Scope, path: seq<nat>, next: Scope): Scope
    requires ScopeAt(s, path).Some?
    decreases |path|
  {
    if path == [] then next
    else
      var k := FindChild(s.entries, path[0]).value;
      s.(entries := s.entries[k := Child(path[0], Replace(s.entries[k].scope, path[1..], next))])
  }

  /** Replacing a scope changes exactly its own registrations. */
  lemma {:induction false} ReplaceRegistered(s: Scope, path: seq<nat>, next: Scope)
    requires ScopeAt(s, path).Some?
    ensures multiset(Registered(Replace(s, path, next))) + multiset(Registered(ScopeAt(s, path).value))
         == multiset(Registered(s)) + multiset(Registered(next))
    decreases |path|
  {
    if path != [] {
      var k := FindChild(s.entries, path[0]).value;
      var after := Replace(s, path, next).entries;
      ReplaceRegistered(s.entries[k].scope, path[1..], next);
      SplitAt(s.entries, k);
      SplitAt(after, k);
      assert after[..k] == s.entries[..k] && after[k + 1..] == s.entries[k + 1..];
      SwapInside(multiset(RegisteredIn(s.entries[..k])), multiset(OwnIds(s.entries[k])), multiset(OwnIds(after[k])),
                 multiset(RegisteredIn(s.entries[k + 1..])), multiset(Registered(next)), multiset(Registered(ScopeAt(s, path).value)));
    }
  }

  /** Sums that agree up to two terms still do with the same terms around them. */
  lemma SwapInside(before: multiset<nat>, was: multiset<nat>, now: multiset<nat>, after: multiset<nat>, came: multiset<nat>, left: multiset<nat>)
    requires now + left == was + came
    ensures before + now + after + left == before + was + after + came
  {
    assert before + now + after + left == before + after + (now + left);
    assert before + was + after + came == before + after + (was + came);
  }

  lemma SplitAt(entries: seq<Entry>, k: nat)
    requires k < |entries|
    ensures multiset(RegisteredIn(entries))
         == multiset(RegisteredIn(entries[..k])) + multiset(OwnIds(entries[k])) + multiset(RegisteredIn(entries[k + 1..]))
  {
    assert entries == entries[..k] + entries[k..];
    RegisteredConcat(entries[..k], entries[k..]);
    assert entries[k..][1..] == entries[k + 1..];
  }

  // ---------------------------------------------------------------- operations

  /**
   A tree of scopes with its history: `added` are the cleanups that were registered, `ran` those that were run, in
   order.
   */
  datatype World = World(root: Scope, added: seq<nat>, ran: seq<nat>)

  datatype Op = Add(path: seq<nat>, id: nat) | Start(path: seq<nat>, component: nat) | Close(path: seq<nat>)

  const Empty := World(NewScope, [], [])

  /** A start is refused by a closed scope. Otherwise the component gets its child scope at its first start. */
  predicate Starts(w: World, path: seq<nat>) {
    ScopeAt(w.root, path).Some? && !ScopeAt(w.root, path).value.closed
  }

  function Started(s: Scope, component: nat): Scope {
    if FindChild(s.entries, component).Some? then s else s.(entries := s.entries + [Child(component, NewScope)])
  }

  function After(w: World, op: Op): World {
    var target := ScopeAt(w.root, op.path);
    if target.None? then w
    else
      match op
      case Add(path, id) =>
        w.(root := Replace(w.root, path, target.value.(entries := target.value.entries + [Cleanup(id)])), added := w.added + [id])
      case Start(path, component) =>
        if target.value.closed then w else w.(root := Replace(w.root, path, Started(target.value, component)))
      case Close(path) =>
        w.(root := Replace(w.root, path, Scope(true, [])), ran := w.ran + Reverse(Registered(target.value)))
  }

  function AfterAll(w: World, ops: seq<Op>): World
    decreases |ops|
  {
    if ops == [] then w else AfterAll(After(w, ops[0]), ops[1..])
  }

  /** The root of a tree of scopes, changed in place. */
  class Tree {
    var root: Scope
    ghost var added: seq<nat>
    var ran: seq<nat>

    ghost function History(): World
      reads this
    {
      World(root, added, ran)
    }

    constructor ()
      ensures History() == Empty
    {
      root, added, ran := NewScope, [], [];
    }

    method AddCleanup(path: seq<nat>, id: nat) returns (found: bool)
      modifies this
      ensures found == ScopeAt(old(root), path).Some?
      ensures History() == After(old(History()), Add(path, id))
    {
      var target := ScopeAt(root, path);
      if target.None? {
        return false;
      }
      root := Replace(root, path, target.value.(entries := target.value.entries + [Cleanup(id)]));
      added := added + [id];
      return true;
    }

    method StartComponent(path: seq<nat>, component: nat) returns (started: bool)
      modifies this`root
      ensures started == Starts(old(History()), path)
      ensures History() == After(old(History()), Start(path, component))
    {
      var target := ScopeAt(root, path);
      if target.None? || target.value.closed {
        return false;
      }
      root := Replace(root, path, Started(target.value, component));
      return true;
    }

    /** Closes a scope: its context is cancelled and its lists are taken away first, then the cleanups run. */
    method CloseScope(path: seq<nat>, ending: nat -> Ending) returns (errors: seq<Failure>)
      modifies this
      ensures History() == After(old(History()), Close(path))
      ensures ScopeAt(old(root), path).Some? ==>
        errors == Report(ScopeAt(old(root), path).value.entries, ending) && Culprits(errors) == Failures(ran[|old(ran)|..], ending)
    {
      errors := [];
      var target := ScopeAt(root, path);
      if target.Some? {
        root := Replace(root, path, Scope(true, []));
        var now: seq<nat>;
        now, errors := RunCleanups(target.value.entries, ending);
        ran := ran + now;
        assert ran[|old(ran)|..] == now;
      }
    }
  }

  // ---------------------------------------------------------------- what every history keeps

  /** Every registered cleanup has run once, or is still registered once. */
  ghost predicate Conserved(w: World) {
    multiset(w.ran) + multiset(Registered(w.root)) == multiset(w.added)
  }

  lemma AppendRegistered(entries: seq<Entry>, e: Entry)
    ensures RegisteredIn(entries + [e]) == RegisteredIn(entries) + OwnIds(e)
  {
    RegisteredConcat(entries, [e]);
    assert [e][1..] == [];
  }

  lemma Cancel(x: multiset<nat>, a: multiset<nat>, r: multiset<nat>, b: multiset<nat>, d: multiset<nat>)
    requires x + a == r + b && b == a + d
    ensures x == r + d
  {
    forall e: nat ensures x[e] == (r + d)[e] {
      assert (x + a)[e] == (r + b)[e];
    }
  }

  lemma AddConserves(w: World, path: seq<nat>, id: nat, target: Scope)
    requires Conserved(w) && ScopeAt(w.root, path) == Some(target)
    ensures Conserved(After(w, Add(path, id)))
  {
    var next := target.(entries := target.entries + [Cleanup(id)]);
    AppendRegistered(target.entries, Cleanup(id));
    assert multiset(Registered(next)) == multiset(Registered(target)) + multiset{id};
    ReplaceRegistered(w.root, path, next);
    Cancel(multiset(Registered(Replace(w.root, path, next))), multiset(Registered(target)), multiset(Registered(w.root)),
           multiset(Registered(next)), multiset{id});
    assert multiset(w.added + [id]) == multiset(w.added) + multiset{id};
  }

  lemma StartConserves(w: World, path: seq<nat>, component: nat, target: Scope)
    requires Conserved(w) && ScopeAt(w.root, path) == Some(target) && !target.closed
    ensures Conserved(After(w, Start(path, component)))
  {
    var next := Started(target, component);
    AppendRegistered(target.entries, Child(component, NewScope));
    assert Registered(next) == Registered(target);
    ReplaceRegistered(w.root, path, next);
    Cancel(multiset(Registered(Replace(w.root, path, next))), multiset(Registered(target)), multiset(Registered(w.root)),
           multiset(Registered(next)), multiset{});
  }

  lemma CloseConserves(w: World, path: seq<nat>, target: Scope)
    requires Conserved(w) && ScopeAt(w.root, path) == Some(target)
    ensures Conserved(After(w, Close(path)))
  {
    var next := Scope(true, []);
    ReverseKeeps(Registered(target));
    ReplaceRegistered(w.root, path, next);
    assert Registered(next) == [];
    var ran := Reverse(Registered(target));
    assert multiset(w.ran + ran) == multiset(w.ran) + multiset(Registered(target));
    assert multiset(Registered(Replace(w.root, path, next))) + multiset(Registered(target)) == multiset(Registered(w.root));
  }

  lemma OpConserves(w: World, op: Op)
    requires Conserved(w)
    ensures Conserved(After(w, op))
  {
    var target := ScopeAt(w.root, op.path);
    if target.Some? {
      match op
      case Add(path, id) => AddConserves(w, path, id, target.value);
      case Start(path, component) =>
        if !target.value.closed {
          StartConserves(w, path, component, target.value);
        }
      case Close(path) => CloseConserves(w, path, target.value);
    }
  }

  lemma {:induction false} OpsConserve(w: World, ops: seq<Op>)
    requires Conserved(w)
    ensures Conserved(AfterAll(w, ops))
    decreases |ops|
  {
    if ops != [] {
      OpConserves(w, ops[0]);
      OpsConserve(After(w, ops[0]), ops[1..]);
    }
  }

  /** Whatever was started and closed before: once the root is closed, every registered cleanup has run exactly once. */
  lemma ClosedRunsAllOnce(ops: seq<Op>)
    ensures
      var w := After(AfterAll(Empty, ops), Close([]));
      multiset(w.ran) == multiset(w.added)
  {
    OpsConserve(Empty, ops);
    OpConserves(AfterAll(Empty, ops), Close([]));
  }

  /** Closing runs last what was registered first; closing again runs nothing. */
  lemma CloseReverses(w: World, path: seq<nat>)
    requires ScopeAt(w.root, path).Some?
    ensures After(w, Close(path)).ran == w.ran + Reverse(Registered(ScopeAt(w.root, path).value))
    ensures After(After(w, Close(path)), Close(path)).ran == After(w, Close(path)).ran
  {
    ScopeAtReplaced(w.root, path, Scope(true, []));
    assert After(w, Close(path)).ran + [] == After(w, Close(path)).ran;
  }

  /** A closed scope still takes cleanups; only another close runs them. */
  lemma LateCleanup(w: World, path: seq<nat>, id: nat)
    requires ScopeAt(w.root, path).Some?
    ensures
      var closed := After(w, Close(path));
      var late := After(closed, Add(path, id));
      late.ran == closed.ran && After(late, Close(path)).ran == closed.ran + [id]
  {
    var closed := After(w, Close(path));
    ScopeAtReplaced(w.root, path, Scope(true, []));
    ScopeAtReplaced(closed.root, path, Scope(true, [Cleanup(id)]));
    assert [] + [Cleanup(id)] == [Cleanup(id)];
    AppendRegistered([], Cleanup(id));
    assert [id][1..] == [] && Reverse([id]) == [id];
  }

  lemma {:induction false} ScopeAtReplaced(s: Scope, path: seq<nat>, next: Scope)
    requires ScopeAt(s, path).Some?
    ensures ScopeAt(Replace(s, path, next), path) == Some(next)
    decreases |path|
  {
    if path != [] {
      var k := FindChild(s.entries, path[0]).value;
      var t := Replace(s, path, next);
      FindReplaced(s.entries, path[0], t.entries[k].scope);
      ScopeAtReplaced(s.entries[k].scope, path[1..], next);
    }
  }

  lemma {:induction false} FindReplaced(entries: seq<Entry>, component: nat, scope: Scope)
    requires FindChild(entries, component).Some?
    ensures FindChild(entries[FindChild(entries, component).value := Child(component, scope)], component) == FindChild(entries, component)
  {
    var k := FindChild(entries, component).value;
    if k > 0 {
      FindReplaced(entries[1..], component, scope);
      assert entries[k := Child(component, scope)][1..] == entries[1..][k - 1 := Child(component, scope)];
    }
  }

  // ---------------------------------------------------------------- no start after a close

  predicate Shut(s: Scope) {
    s.closed && forall e <- s.entries :: e.Cleanup?
  }

  /** The scope at the path, or one above it, is closed for good. */
  predicate Sealed(s: Scope, path: seq<nat>)
    decreases |path|
  {
    Shut(s) || (path != [] && FindChild(s.entries, path[0]).Some? && Sealed(s.entries[FindChild(s.entries, path[0]).value].scope, path[1..]))
  }

  lemma {:induction false} SealedRefuses(s: Scope, path: seq<nat>)
    requires Sealed(s, path)
    ensures ScopeAt(s, path).None? || ScopeAt(s, path).value.closed
    decreases |path|
  {
    if path != [] && FindChild(s.entries, path[0]).Some? {
      var k := FindChild(s.entries, path[0]).value;
      assert s.entries[k] in s.entries && !Shut(s);
      SealedRefuses(s.entries[k].scope, path[1..]);
    }
  }

  lemma {:induction false} FindAppended(entries: seq<Entry>, component: nat, e: Entry)
    requires FindChild(entries, component).Some?
    ensures FindChild(entries + [e], component) == FindChild(entries, component)
  {
    if FindChild(entries, component).value > 0 {
      assert (entries + [e])[1..] == entries[1..] + [e];
      FindAppended(entries[1..], component, e);
    }
  }

  lemma {:induction false} FindOther(entries: seq<Entry>, k: nat, component: nat, scope: Scope)
    requires k < |entries| && entries[k].Child? && entries[k].component != component
    ensures FindChild(entries[k := Child(entries[k].component, scope)], component) == FindChild(entries, component)
  {
    var changed := entries[k := Child(entries[k].component, scope)];
    if k > 0 {
      assert changed[1..] == entries[1..][k - 1 := Child(entries[k].component, scope)];
      FindOther(entries[1..], k - 1, component, scope);
    } else {
      assert changed[1..] == entries[1..];
    }
  }

  /** Appending to a scope keeps what is sealed in it, unless it opens a child in a shut scope. */
  lemma SealedAppended(s: Scope, e: Entry, path: seq<nat>)
    requires Sealed(s, path) && (e.Child? ==> !Shut(s))
    ensures Sealed(s.(entries := s.entries + [e]), path)
  {
    if !Shut(s) {
      FindAppended(s.entries, path[0], e);
    }
  }

  lemma {:induction false} SealedReplaced(s: Scope, path: seq<nat>, at: seq<nat>, next: Scope)
    requires Sealed(s, path) && ScopeAt(s, at).Some?
    requires forall r :: Sealed(ScopeAt(s, at).value, r) ==> Sealed(next, r)
    ensures Sealed(Replace(s, at, next), path)
    decreases |at|
  {
    if at != [] {
      var k := FindChild(s.entries, at[0]).value;
      assert s.entries[k] in s.entries && !Shut(s);
      var inner := Replace(s.entries[k].scope, at[1..], next);
      if path[0] == at[0] {
        FindReplaced(s.entries, at[0], inner);
        SealedReplaced(s.entries[k].scope, path[1..], at[1..], next);
      } else {
        FindOther(s.entries, k, path[0], inner);
      }
    }
  }

  lemma SealedStays(w: World, op: Op, path: seq<nat>)
    requires Sealed(w.root, path)
    ensures Sealed(After(w, op).root, path)
  {
    var target := ScopeAt(w.root, op.path);
    if target.Some? && !(op.Start? && target.value.closed) {
      var next := match op
        case Add(_, id) => target.value.(entries := target.value.entries + [Cleanup(id)])
        case Start(_, component) => Started(target.value, component)
        case Close(_) => Scope(true, []);
      forall r | Sealed(target.value, r)
        ensures Sealed(next, r)
      {
        if op.Add? {
          SealedAppended(target.value, Cleanup(op.id), r);
        } else if op.Start? {
          SealedAppended(target.value, Child(op.component, NewScope), r);
        }
      }
      SealedReplaced(w.root, path, op.path, next);
    }
  }

  lemma {:induction false} SealedForever(w: World, ops: seq<Op>, path: seq<nat>)
    requires Sealed(w.root, path)
    ensures Sealed(AfterAll(w, ops).root, path)
    decreases |ops|
  {
    if ops != [] {
      SealedStays(w, ops[0], path);
      SealedForever(After(w, ops[0]), ops[1..], path);
    }
  }

  lemma {:induction false} ReplaceSeals(s: Scope, path: seq<nat>)
    requires ScopeAt(s, path).Some?
    ensures Sealed(Replace(s, path, Scope(true, [])), path)
    decreases |path|
  {
    if path != [] {
      var k := FindChild(s.entries, path[0]).value;
      ReplaceSeals(s.entries[k].scope, path[1..]);
      FindReplaced(s.entries, path[0], Replace(s.entries[k].scope, path[1..], Scope(true, [])));
    }
  }

  lemma {:induction false} SealedBelow(s: Scope, path: seq<nat>, sub: seq<nat>)
    requires Sealed(s, path)
    ensures Sealed(s, path + sub)
    decreases |path|
  {
    if !Shut(s) {
      assert (path + sub)[1..] == path[1..] + sub;
      SealedBelow(s.entries[FindChild(s.entries, path[0]).value].scope, path[1..], sub);
    }
  }

  /** After a scope is closed, no start in it or below it ever succeeds again, whatever else happens in the tree. */
  lemma NoStartAfterClose(w: World, path: seq<nat>, sub: seq<nat>, ops: seq<Op>)
    requires ScopeAt(w.root, path).Some?
    ensures !Starts(AfterAll(After(w, Close(path)), ops), path + sub)
  {
    ReplaceSeals(w.root, path);
    SealedForever(After(w, Close(path)), ops, path);
    SealedBelow(AfterAll(After(w, Close(path)), ops).root, path, sub);
    SealedRefuses(AfterAll(After(w, Close(path)), ops).root, path + sub);
  }
}
