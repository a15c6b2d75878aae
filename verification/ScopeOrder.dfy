/** The order in which a close runs the cleanups, from the history of registrations and starts alone. */
module ScopeOrder {
  import opened Wrappers
  import opened ScopeTree

  function Strip(op: Op): Op
    requires op.path != []
  {
    op.(path := op.path[1..])
  }

  /** What a history does at or below the scope of a component, seen from that scope. */
  function Inside(ops: seq<Op>, component: nat): (r: seq<Op>)
    ensures |r| <= |ops|
  {
    if ops == [] then []
    else if ops[0].path != [] && ops[0].path[0] == component then [Strip(ops[0])] + Inside(ops[1..], component)
    else Inside(ops[1..], component)
  }

  /**
   The order of registration in a scope that has started the components `seen`: own cleanups at their time, all those
   of a component at the time of its first start.
   */
  function Order(ops: seq<Op>, seen: set<nat>): seq<nat>
    decreases |ops|
  {
    if ops == [] then []
    else
      var rest := ops[1..];
      if ops[0].Add? && ops[0].path == [] then [ops[0].id] + Order(rest, seen)
      else if ops[0].Start? && ops[0].path == [] && ops[0].component !in seen then
        Order(Inside(rest, ops[0].component), {}) + Order(rest, seen + {ops[0].component})
      else Order(rest, seen)
  }

  predicate NoClose(ops: seq<Op>) {
    forall op <- ops :: !op.Close?
  }

  // ---------------------------------------------------------------- the entries a history adds

  function Fresh(ops: seq<Op>, seen: set<nat>): seq<Entry>
    decreases |ops|
  {
    if ops == [] then []
    else
      var rest := ops[1..];
      if ops[0].Add? && ops[0].path == [] then [Cleanup(ops[0].id)] + Fresh(rest, seen)
      else if ops[0].Start? && ops[0].path == [] && ops[0].component !in seen then
        [Child(ops[0].component, Scope(false, Fresh(Inside(rest, ops[0].component), {})))] + Fresh(rest, seen + {ops[0].component})
      else Fresh(rest, seen)
  }

  lemma {:induction false} FreshOrder(ops: seq<Op>, seen: set<nat>)
    ensures RegisteredIn(Fresh(ops, seen)) == Order(ops, seen)
    decreases |ops|
  {
    if ops != [] {
      var rest := ops[1..];
      if ops[0].Add? && ops[0].path == [] {
        FreshOrder(rest, seen);
      } else if ops[0].Start? && ops[0].path == [] && ops[0].component !in seen {
        FreshOrder(Inside(rest, ops[0].component), {});
        FreshOrder(rest, seen + {ops[0].component});
      } else {
        FreshOrder(rest, seen);
      }
    }
  }

  function Components(entries: seq<Entry>): set<nat> {
    set e <- entries | e.Child? :: e.component
  }

  /** An entry after a history, and a list of entries after a history. */
  function Grown(e: Entry, ops: seq<Op>): Entry {
    match e
    case Cleanup(_) => e
    case Child(component, scope) =>
      Child(component, scope.(entries := GrownAll(scope.entries, Inside(ops, component)) + Fresh(Inside(ops, component), Components(scope.entries))))
  }

  function GrownAll(entries: seq<Entry>, ops: seq<Op>): (r: seq<Entry>)
    ensures |r| == |entries| && forall i :: 0 <= i < |entries| ==> r[i] == Grown(entries[i], ops)
  {
    if entries == [] then [] else [Grown(entries[0], ops)] + GrownAll(entries[1..], ops)
  }

  function Grow(entries: seq<Entry>, ops: seq<Op>): seq<Entry> {
    GrownAll(entries, ops) + Fresh(ops, Components(entries))
  }

  // ---------------------------------------------------------------- one operation

  /** No scope in the list is closed, and no component is in it twice. */
  predicate Tidy(entries: seq<Entry>) {
    && (forall i, j :: 0 <= i < j < |entries| && entries[i].Child? && entries[j].Child? ==> entries[i].component != entries[j].component)
    && (forall e <- entries :: TidyEntry(e))
  }

  predicate TidyEntry(e: Entry) {
    match e
    case Cleanup(_) => true
    case Child(_, scope) => !scope.closed && Tidy(scope.entries)
  }

  /** The entries of an open scope after an operation in it or below it. */
  function Done(entries: seq<Entry>, op: Op): seq<Entry>
    decreases |op.path|
  {
    if op.path == [] then
      match op
      case Add(_, id) => entries + [Cleanup(id)]
      case Start(_, component) => Started(Scope(false, entries), component).entries
      case Close(_) => []
    else
      var k := FindChild(entries, op.path[0]);
      if k.None? then entries
      else
        var child := entries[k.value].scope;
        entries[k.value := Child(op.path[0], child.(entries := Done(child.entries, Strip(op))))]
  }

  lemma InsideFirst(op: Op, rest: seq<Op>, component: nat)
    ensures Inside([op] + rest, component) ==
      (if op.path != [] && op.path[0] == component then [Strip(op)] else []) + Inside(rest, component)
  {
    assert ([op] + rest)[1..] == rest;
  }

  lemma GrownElsewhere(e: Entry, op: Op, rest: seq<Op>)
    requires e.Child? ==> op.path == [] || op.path[0] != e.component
    ensures Grown(e, [op] + rest) == Grown(e, rest)
  {
    if e.Child? {
      InsideFirst(op, rest, e.component);
      assert [] + Inside(rest, e.component) == Inside(rest, e.component);
    }
  }

  lemma {:induction false} AddGrows(entries: seq<Entry>, op: Op, rest: seq<Op>)
    requires op.Add? && op.path == []
    ensures Grow(Done(entries, op), rest) == Grow(entries, [op] + rest)
  {
    assert ([op] + rest)[1..] == rest;
    var more := entries + [Cleanup(op.id)];
    assert Components(more) == Components(entries);
    forall i | 0 <= i < |entries|
      ensures Grown(entries[i], [op] + rest) == Grown(entries[i], rest)
    {
      GrownElsewhere(entries[i], op, rest);
    }
    assert GrownAll(more, rest) == GrownAll(entries, [op] + rest) + [Cleanup(op.id)];
  }

  lemma {:induction false} StartGrows(entries: seq<Entry>, op: Op, rest: seq<Op>)
    requires op.Start? && op.path == []
    ensures Grow(Done(entries, op), rest) == Grow(entries, [op] + rest)
  {
    assert ([op] + rest)[1..] == rest;
    forall i | 0 <= i < |entries|
      ensures Grown(entries[i], [op] + rest) == Grown(entries[i], rest)
    {
      GrownElsewhere(entries[i], op, rest);
    }
    assert GrownAll(entries, [op] + rest) == GrownAll(entries, rest);
    var k := FindChild(entries, op.component);
    if k.Some? {
      assert entries[k.value] in entries;
    } else {
      NewChildGrows(entries, op.component, rest);
      Associate(GrownAll(entries, rest), Child(op.component, Scope(false, Fresh(Inside(rest, op.component), {}))),
                Fresh(rest, Components(entries) + {op.component}));
    }
  }

  lemma Associate(a: seq<Entry>, e: Entry, b: seq<Entry>)
    ensures (a + [e]) + b == a + ([e] + b)
  {
  }

  lemma {:induction false} NewChildGrows(entries: seq<Entry>, component: nat, rest: seq<Op>)
    requires FindChild(entries, component).None?
    ensures component !in Components(entries)
    ensures Components(entries + [Child(component, NewScope)]) == Components(entries) + {component}
    ensures GrownAll(entries + [Child(component, NewScope)], rest) ==
      GrownAll(entries, rest) + [Child(component, Scope(false, Fresh(Inside(rest, component), {})))]
  {
    ComponentsAppend(entries, Child(component, NewScope));
    GrownNew(component, rest);
    GrownAllAppend(entries, Child(component, NewScope), rest);
  }

  lemma ComponentsAppend(entries: seq<Entry>, e: Entry)
    requires e.Child?
    ensures Components(entries + [e]) == Components(entries) + {e.component}
  {
  }

  lemma GrownAllAppend(entries: seq<Entry>, e: Entry, ops: seq<Op>)
    ensures GrownAll(entries + [e], ops) == GrownAll(entries, ops) + [Grown(e, ops)]
  {
  }

  lemma GrownNew(component: nat, rest: seq<Op>)
    ensures Grown(Child(component, NewScope), rest) == Child(component, Scope(false, Fresh(Inside(rest, component), {})))
  {
    assert Components([]) == {};
    assert GrownAll([], Inside(rest, component)) + Fresh(Inside(rest, component), {}) == Fresh(Inside(rest, component), {});
  }

  lemma {:induction false} DoneGrows(entries: seq<Entry>, op: Op, rest: seq<Op>)
    requires Tidy(entries) && !op.Close?
    ensures Grow(Done(entries, op), rest) == Grow(entries, [op] + rest)
    decreases |op.path|
  {
    if op.path == [] {
      if op.Add? {
        AddGrows(entries, op, rest);
      } else {
        StartGrows(entries, op, rest);
      }
    } else {
      var k := FindChild(entries, op.path[0]);
      if k.Some? {
        assert entries[k.value] in entries;
        DoneGrows(entries[k.value].scope.entries, Strip(op), Inside(rest, op.path[0]));
      }
      DeepGrows(entries, op, rest);
    }
  }

  lemma {:induction false} DeepGrows(entries: seq<Entry>, op: Op, rest: seq<Op>)
    requires Tidy(entries) && op.path != []
    requires
      var k := FindChild(entries, op.path[0]);
      k.Some? ==>
        var inner := entries[k.value].scope.entries;
        Grow(Done(inner, Strip(op)), Inside(rest, op.path[0])) == Grow(inner, [Strip(op)] + Inside(rest, op.path[0]))
    ensures Grow(Done(entries, op), rest) == Grow(entries, [op] + rest)
  {
    assert ([op] + rest)[1..] == rest;
    var k := FindChild(entries, op.path[0]);
    var done := Done(entries, op);
    forall i | 0 <= i < |entries|
      ensures Grown(done[i], rest) == Grown(entries[i], [op] + rest)
    {
      if k.Some? && i == k.value {
        InsideFirst(op, rest, op.path[0]);
      } else {
        GrownElsewhere(entries[i], op, rest);
      }
    }
    assert GrownAll(done, rest) == GrownAll(entries, [op] + rest);
    assert Components(done) == Components(entries) by { SameComponents(entries, done); }
  }

  lemma SameComponents(a: seq<Entry>, b: seq<Entry>)
    requires |a| == |b| && forall i :: 0 <= i < |a| ==> a[i].Child? == b[i].Child? && (a[i].Child? ==> a[i].component == b[i].component)
    ensures Components(a) == Components(b)
  {
    forall c
      ensures c in Components(a) <==> c in Components(b)
    {
      if c in Components(a) {
        var i :| 0 <= i < |a| && a[i].Child? && a[i].component == c;
        assert b[i] in b;
      }
      if c in Components(b) {
        var i :| 0 <= i < |b| && b[i].Child? && b[i].component == c;
        assert a[i] in a;
      }
    }
  }

  // ---------------------------------------------------------------- whole histories

  lemma {:induction false} DoneIsAfter(s: Scope, op: Op)
    requires !s.closed && Tidy(s.entries) && !op.Close?
    ensures After(World(s, [], []), op).root == s.(entries := Done(s.entries, op))
    decreases |op.path|
  {
    if op.path != [] {
      var k := FindChild(s.entries, op.path[0]);
      if k.Some? {
        assert TidyEntry(s.entries[k.value]);
        DoneIsAfter(s.entries[k.value].scope, Strip(op));
      }
    }
  }

  lemma {:induction false} DoneIsTidy(entries: seq<Entry>, op: Op)
    requires Tidy(entries) && !op.Close?
    ensures Tidy(Done(entries, op))
    decreases |op.path|
  {
    if op.path != [] {
      var k := FindChild(entries, op.path[0]);
      if k.Some? {
        assert TidyEntry(entries[k.value]);
        DoneIsTidy(entries[k.value].scope.entries, Strip(op));
      }
    } else if op.Start? {
      assert Tidy(NewScope.entries);
    }
  }

  /** The root does not depend on the records kept beside it. */
  lemma RootOnly(w: World, op: Op)
    ensures After(w, op).root == After(World(w.root, [], []), op).root
  {
  }

  lemma {:induction false} HistoryGrows(w: World, ops: seq<Op>)
    requires !w.root.closed && Tidy(w.root.entries) && NoClose(ops)
    ensures AfterAll(w, ops).root == w.root.(entries := Grow(w.root.entries, ops))
    ensures AfterAll(w, ops).ran == w.ran
    decreases |ops|
  {
    if ops == [] {
      NothingGrows(w.root.entries);
    } else {
      assert !ops[0].Close?;
      RootOnly(w, ops[0]);
      DoneIsAfter(w.root, ops[0]);
      DoneIsTidy(w.root.entries, ops[0]);
      HistoryGrows(After(w, ops[0]), ops[1..]);
      DoneGrows(w.root.entries, ops[0], ops[1..]);
      assert [ops[0]] + ops[1..] == ops;
    }
  }

  lemma {:induction false} NothingGrows(entries: seq<Entry>)
    ensures Grow(entries, []) == entries
    decreases entries
  {
    forall i | 0 <= i < |entries|
      ensures Grown(entries[i], []) == entries[i]
    {
      NothingGrowsIn(entries[i]);
    }
    assert GrownAll(entries, []) == entries;
  }

  lemma {:induction false} NothingGrowsIn(e: Entry)
    ensures Grown(e, []) == e
    decreases e
  {
    if e.Child? {
      NothingGrows(e.scope.entries);
    }
  }

  /**
   Closing after any history of registrations and starts runs the cleanups in reverse of their order of registration:
   own cleanups by their time, those of a component together, by the time of its first start.
   */
  lemma {:induction false} ClosingOrder(ops: seq<Op>)
    requires NoClose(ops)
    ensures After(AfterAll(Empty, ops), Close([])).ran == Reverse(Order(ops, {}))
  {
    HistoryGrows(Empty, ops);
    assert Components([]) == {} && GrownAll([], ops) + Fresh(ops, {}) == Fresh(ops, {});
    FreshOrder(ops, {});
    assert [] + Reverse(Order(ops, {})) == Reverse(Order(ops, {}));
  }
}
