/**
 The per-key lock of the DNS client: synchronous and asynchronous exchanges, lookups and background refreshes, in
 every interleaving. Each access to a shared map and each close of a channel is one step; the cache, the context and
 the transport decide by the choice a step carries.
 */
module ClientFlight {
  import opened Wrappers

  /** The key of an exchange is the cache key with the timeout. */
  datatype Key = Key(cache: int, timeout: int)

  type Channel = nat

  /**
   The maps the exchanges share. `owner` records which exchange made each channel, `refreshing` which one runs the
   refresh of a cache key, `broken` whether a channel was closed twice.
   */
  datatype Shared = Shared(lock: map<Key, Channel>, owner: map<Channel, nat>, closed: set<Channel>, refreshing: map<int, nat>, next: Channel, broken: bool)

  const Empty := Shared(map[], map[], {}, map[], 0, false)

  // ---------------------------------------------------------------- single steps on the shared maps

  function Acquired(s: Shared, key: Key, me: nat): Shared {
    if key in s.lock then s
    else s.(lock := s.lock[key := s.next], owner := s.owner[s.next := me], next := s.next + 1)
  }

  function Deleted(s: Shared, key: Key): Shared {
    s.(lock := s.lock - {key})
  }

  function ClosedOff(s: Shared, channel: Channel): Shared {
    s.(closed := s.closed + {channel}, broken := s.broken || channel in s.closed)
  }

  // ---------------------------------------------------------------- the exchanges

  /**
   Where an exchange is. `held` is the channel it has to release, `cond` the channel of the exchange it found in the
   map, `wait` whether it may wait for that one.
   */
  datatype Pc =
    | Entered(timeout: int, wait: bool)
    | Looking(key: Key, held: Option<Channel>, cond: Option<Channel>, wait: bool)
    | Waiting(key: Key, channel: Channel)
    | Checking(key: Key, held: Option<Channel>)
    | Querying(key: Key, held: Option<Channel>)
    | Releasing(key: Key, held: Option<Channel>, stale: bool)
    | Closing(key: Key, channel: Channel, stale: bool)
    | Renewing(cache: int)
    | Refreshing(cache: int)
    | Returned

  /** `Go` carries the cache key, which may change with the network environment. */
  datatype Choice = Go(cache: int) | Bail | Bypass | HitFresh | HitStale

  datatype Sys = Sys(shared: Shared, pcs: seq<Pc>)

  datatype Step = Arrive(pc: Pc) | Advance(me: nat, choice: Choice)

  const Start := Sys(Empty, [])

  /** A new exchange, synchronous or not, or a lookup that was served a stale answer. */
  predicate Arrival(pc: Pc) {
    pc.Entered? || pc.Renewing?
  }

  predicate Allowed(s: Shared, pc: Pc, choice: Choice) {
    match pc
    case Entered(_, _) => choice.Go? || choice.Bail? || choice.Bypass?
    case Looking(_, _, _, _) => choice.Go? || choice.HitFresh? || choice.HitStale?
    case Waiting(_, channel) => choice.Bail? || (choice.Go? && channel in s.closed)
    case Checking(_, _) => choice.Go? || choice.Bail?
    case Returned => false
    case _ => choice.Go?
  }

  predicate Enabled(s: Sys, step: Step) {
    match step
    case Arrive(pc) => Arrival(pc)
    case Advance(me, choice) => me < |s.pcs| && Allowed(s.shared, s.pcs[me], choice)
  }

  function Released(key: Key, stale: bool): Pc {
    if stale then Renewing(key.cache) else Returned
  }

  /** The next step of exchange `me`. A third part is a goroutine it starts. */
  function Move(s: Shared, me: nat, child: nat, pc: Pc, choice: Choice): (Shared, Pc, seq<Pc>)
    requires Allowed(s, pc, choice)
  {
    match pc
    case Entered(timeout, wait) =>
      (match choice
       case Go(cache) =>
         var key := Key(cache, timeout);
         if key in s.lock then (s, Looking(key, None, Some(s.lock[key]), wait), [])
         else (Acquired(s, key, me), Looking(key, Some(s.next), None, wait), [])
       case Bypass => (s, Checking(Key(0, timeout), None), [])
       case _ => (s, Returned, []))
    case Looking(key, held, cond, wait) =>
      (match choice
       case HitFresh => (s, Releasing(key, held, false), [])
       case HitStale => (s, Releasing(key, held, true), [])
       case _ =>
         if cond.None? then (s, Checking(key, held), [])
         else if !wait then (s, Entered(key.timeout, true), [])
         else (s, Waiting(key, cond.value), []))
    case Waiting(key, _) =>
      (match choice
       case Go(cache) => (s, Looking(Key(cache, key.timeout), None, None, true), [])
       case _ => (s, Returned, []))
    case Checking(key, held) => if choice.Bail? then (s, Releasing(key, held, false), []) else (s, Querying(key, held), [])
    case Querying(key, held) => (s, Releasing(key, held, false), [])
    case Releasing(key, held, stale) =>
      if held.None? then (s, Released(key, stale), []) else (Deleted(s, key), Closing(key, held.value, stale), [])
    case Closing(key, channel, stale) => (ClosedOff(s, channel), Released(key, stale), [])
    case Renewing(cache) =>
      if cache in s.refreshing then (s, Returned, [])
      else (s.(refreshing := s.refreshing[cache := child]), Returned, [Refreshing(cache)])
    case Refreshing(cache) => (s.(refreshing := s.refreshing - {cache}), Returned, [])
    case Returned => (s, pc, [])
  }

  function Apply(s: Sys, step: Step): Sys
    requires Enabled(s, step)
  {
    match step
    case Arrive(pc) => s.(pcs := s.pcs + [pc])
    case Advance(me, choice) =>
      var (shared, pc, spawned) := Move(s.shared, me, |s.pcs|, s.pcs[me], choice);
      Sys(shared, s.pcs[me := pc] + spawned)
  }

  predicate Runs(s: Sys, steps: seq<Step>, t: Sys)
    decreases |steps|
  {
    if steps == [] then s == t else Enabled(s, steps[0]) && Runs(Apply(s, steps[0]), steps[1..], t)
  }

  // ---------------------------------------------------------------- the invariant

  /** The channel an exchange holds the key of. */
  function Holds(pc: Pc): Option<Channel> {
    match pc
    case Looking(_, held, _, _) => held
    case Checking(_, held) => held
    case Querying(_, held) => held
    case Releasing(_, held, _) => held
    case _ => None
  }

  /** The channel an exchange still has to close. */
  function Owes(pc: Pc): Option<Channel> {
    if pc.Closing? then Some(pc.channel) else Holds(pc)
  }

  function KeyOf(pc: Pc): Key
    requires Owes(pc).Some?
  {
    pc.key
  }

  /** Two ways of saying who owes a close agree. */
  ghost predicate OwnersOk(owner: map<Channel, nat>, closed: set<Channel>, pcs: seq<Pc>) {
    && (forall p :: 0 <= p < |pcs| && Owes(pcs[p]).Some? ==> Owes(pcs[p]).value in owner && owner[Owes(pcs[p]).value] == p)
    && (forall c :: c in owner ==> owner[c] < |pcs| && (c in closed <==> Owes(pcs[owner[c]]) != Some(c)))
    && closed <= owner.Keys
  }

  /** The map holds exactly the channels of the holders, each under its holder's key. */
  ghost predicate LockOk(lock: map<Key, Channel>, owner: map<Channel, nat>, pcs: seq<Pc>) {
    && (forall p :: 0 <= p < |pcs| && Holds(pcs[p]).Some? ==> KeyOf(pcs[p]) in lock && lock[KeyOf(pcs[p])] == Holds(pcs[p]).value)
    && (forall k :: k in lock ==>
          lock[k] in owner && owner[lock[k]] < |pcs| && Holds(pcs[owner[lock[k]]]) == Some(lock[k]) && KeyOf(pcs[owner[lock[k]]]) == k)
  }

  /** What one exchange looks at is a channel that was made, and it then holds nothing. */
  ghost predicate WatchOk(owner: map<Channel, nat>, pc: Pc) {
    && (pc.Waiting? ==> pc.channel in owner)
    && (pc.Looking? && pc.cond.Some? ==> pc.held.None? && pc.cond.value in owner)
  }

  /** Whoever looks at or waits for another exchange's channel holds nothing. */
  ghost predicate WaitersOk(owner: map<Channel, nat>, pcs: seq<Pc>) {
    forall pc <- pcs :: WatchOk(owner, pc)
  }

  ghost predicate RefreshOk(refreshing: map<int, nat>, pcs: seq<Pc>) {
    && (forall p :: 0 <= p < |pcs| && pcs[p].Refreshing? ==> pcs[p].cache in refreshing && refreshing[pcs[p].cache] == p)
    && (forall c :: c in refreshing ==> refreshing[c] < |pcs| && pcs[refreshing[c]] == Refreshing(c))
  }

  ghost predicate Inv(s: Sys) {
    && OwnersOk(s.shared.owner, s.shared.closed, s.pcs)
    && LockOk(s.shared.lock, s.shared.owner, s.pcs)
    && WaitersOk(s.shared.owner, s.pcs)
    && RefreshOk(s.shared.refreshing, s.pcs)
    && (forall c :: c in s.shared.owner ==> c < s.shared.next)
    && !s.shared.broken
  }

  // Each part of the invariant after a step of one exchange that does not touch it.

  lemma OwnersFrame(owner: map<Channel, nat>, closed: set<Channel>, pcs: seq<Pc>, me: nat, pc: Pc)
    requires OwnersOk(owner, closed, pcs) && me < |pcs| && Owes(pc) == Owes(pcs[me])
    ensures OwnersOk(owner, closed, pcs[me := pc])
  {
  }

  lemma LockFrame(lock: map<Key, Channel>, owner: map<Channel, nat>, pcs: seq<Pc>, me: nat, pc: Pc)
    requires LockOk(lock, owner, pcs) && me < |pcs| && Holds(pc) == Holds(pcs[me])
    requires Holds(pc).Some? ==> KeyOf(pc) == KeyOf(pcs[me])
    ensures LockOk(lock, owner, pcs[me := pc])
  {
  }

  lemma WaitersFrame(owner: map<Channel, nat>, pcs: seq<Pc>, more: map<Channel, nat>, me: nat, pc: Pc)
    requires WaitersOk(owner, pcs) && owner.Keys <= more.Keys && me < |pcs| && WatchOk(more, pc)
    ensures WaitersOk(more, pcs[me := pc])
  {
    forall p <- pcs[me := pc]
      ensures WatchOk(more, p)
    {
      assert p == pc || p in pcs;
    }
  }

  lemma RefreshFrame(refreshing: map<int, nat>, pcs: seq<Pc>, me: nat, pc: Pc)
    requires RefreshOk(refreshing, pcs) && me < |pcs| && !pc.Refreshing? && !pcs[me].Refreshing?
    ensures RefreshOk(refreshing, pcs[me := pc])
  {
  }

  /** A step on nothing shared that keeps what the exchange holds. */
  lemma QuietOk(s: Sys, me: nat, pc: Pc)
    requires Inv(s) && me < |s.pcs| && WatchOk(s.shared.owner, pc)
    requires Owes(pc) == Owes(s.pcs[me]) && Holds(pc) == Holds(s.pcs[me])
    requires Owes(pc).Some? ==> KeyOf(pc) == KeyOf(s.pcs[me])
    requires !pc.Refreshing? && !s.pcs[me].Refreshing?
    ensures Inv(s.(pcs := s.pcs[me := pc]))
  {
    OwnersFrame(s.shared.owner, s.shared.closed, s.pcs, me, pc);
    LockFrame(s.shared.lock, s.shared.owner, s.pcs, me, pc);
    WaitersFrame(s.shared.owner, s.pcs, s.shared.owner, me, pc);
    RefreshFrame(s.shared.refreshing, s.pcs, me, pc);
  }

  // The steps that touch the shared maps.

  lemma AcquireOwners(owner: map<Channel, nat>, closed: set<Channel>, pcs: seq<Pc>, me: nat, channel: Channel, pc: Pc)
    requires OwnersOk(owner, closed, pcs) && channel !in owner && me < |pcs| && Owes(pcs[me]).None? && Owes(pc) == Some(channel)
    ensures OwnersOk(owner[channel := me], closed, pcs[me := pc])
  {
  }

  lemma AcquireLock(lock: map<Key, Channel>, owner: map<Channel, nat>, pcs: seq<Pc>, me: nat, channel: Channel, pc: Pc)
    requires LockOk(lock, owner, pcs) && channel !in owner && me < |pcs| && Holds(pcs[me]).None?
    requires Holds(pc) == Some(channel) && KeyOf(pc) !in lock
    ensures LockOk(lock[KeyOf(pc) := channel], owner[channel := me], pcs[me := pc])
  {
  }

  lemma AcquireOk(s: Sys, me: nat, pc: Pc)
    requires Inv(s) && me < |s.pcs| && s.pcs[me].Entered?
    requires pc.Looking? && pc.key !in s.shared.lock && pc.held == Some(s.shared.next) && pc.cond.None?
    ensures Inv(Sys(Acquired(s.shared, pc.key, me), s.pcs[me := pc]))
  {
    var owner := s.shared.owner;
    var next := s.shared.next;
    assert next !in owner;
    AcquireOwners(owner, s.shared.closed, s.pcs, me, next, pc);
    AcquireLock(s.shared.lock, owner, s.pcs, me, next, pc);
    WaitersFrame(owner, s.pcs, owner[next := me], me, pc);
    RefreshFrame(s.shared.refreshing, s.pcs, me, pc);
  }

  lemma DeleteLock(lock: map<Key, Channel>, owner: map<Channel, nat>, closed: set<Channel>, pcs: seq<Pc>, me: nat, pc: Pc)
    requires OwnersOk(owner, closed, pcs) && LockOk(lock, owner, pcs)
    requires me < |pcs| && Holds(pcs[me]).Some? && Holds(pc).None?
    ensures LockOk(lock - {KeyOf(pcs[me])}, owner, pcs[me := pc])
  {
    var key := KeyOf(pcs[me]);
    assert owner[lock[key]] == me;
    forall p | 0 <= p < |pcs| && p != me && Holds(pcs[p]).Some?
      ensures KeyOf(pcs[p]) != key
    {
      assert owner[Owes(pcs[p]).value] == p;
    }
  }

  lemma DeleteOk(s: Sys, me: nat, pc: Pc)
    requires Inv(s) && me < |s.pcs| && s.pcs[me].Releasing? && s.pcs[me].held.Some?
    requires pc.Closing? && pc.key == s.pcs[me].key && pc.channel == s.pcs[me].held.value
    ensures Inv(Sys(Deleted(s.shared, pc.key), s.pcs[me := pc]))
  {
    OwnersFrame(s.shared.owner, s.shared.closed, s.pcs, me, pc);
    DeleteLock(s.shared.lock, s.shared.owner, s.shared.closed, s.pcs, me, pc);
    WaitersFrame(s.shared.owner, s.pcs, s.shared.owner, me, pc);
    RefreshFrame(s.shared.refreshing, s.pcs, me, pc);
  }

  lemma CloseOwners(owner: map<Channel, nat>, closed: set<Channel>, pcs: seq<Pc>, me: nat, pc: Pc)
    requires OwnersOk(owner, closed, pcs) && me < |pcs| && Owes(pcs[me]).Some? && Owes(pc).None?
    ensures Owes(pcs[me]).value !in closed
    ensures OwnersOk(owner, closed + {Owes(pcs[me]).value}, pcs[me := pc])
  {
  }

  lemma CloseOk(s: Sys, me: nat, pc: Pc)
    requires Inv(s) && me < |s.pcs| && s.pcs[me].Closing?
    requires pc.Returned? || pc.Renewing?
    ensures Inv(Sys(ClosedOff(s.shared, s.pcs[me].channel), s.pcs[me := pc]))
  {
    CloseOwners(s.shared.owner, s.shared.closed, s.pcs, me, pc);
    LockFrame(s.shared.lock, s.shared.owner, s.pcs, me, pc);
    WaitersFrame(s.shared.owner, s.pcs, s.shared.owner, me, pc);
    RefreshFrame(s.shared.refreshing, s.pcs, me, pc);
  }

  /** Appending an exchange that holds nothing. */
  lemma SpawnOk(s: Sys, pc: Pc)
    requires Inv(s) && Owes(pc).None? && !pc.Waiting? && !pc.Looking? && !pc.Refreshing?
    ensures Inv(s.(pcs := s.pcs + [pc]))
  {
  }

  lemma RefreshStart(refreshing: map<int, nat>, pcs: seq<Pc>, child: nat, cache: int)
    requires RefreshOk(refreshing, pcs) && child < |pcs| && pcs[child].Returned? && cache !in refreshing
    ensures RefreshOk(refreshing[cache := child], pcs[child := Refreshing(cache)])
  {
  }

  lemma RefreshEnd(refreshing: map<int, nat>, pcs: seq<Pc>, me: nat)
    requires RefreshOk(refreshing, pcs) && me < |pcs| && pcs[me].Refreshing?
    ensures RefreshOk(refreshing - {pcs[me].cache}, pcs[me := Returned])
  {
  }

  lemma RefreshStartOk(s: Sys, child: nat, cache: int)
    requires Inv(s) && child < |s.pcs| && s.pcs[child].Returned? && cache !in s.shared.refreshing
    ensures Inv(Sys(s.shared.(refreshing := s.shared.refreshing[cache := child]), s.pcs[child := Refreshing(cache)]))
  {
    var pc := Refreshing(cache);
    OwnersFrame(s.shared.owner, s.shared.closed, s.pcs, child, pc);
    LockFrame(s.shared.lock, s.shared.owner, s.pcs, child, pc);
    WaitersFrame(s.shared.owner, s.pcs, s.shared.owner, child, pc);
    RefreshStart(s.shared.refreshing, s.pcs, child, cache);
  }

  lemma RefreshEndOk(s: Sys, me: nat)
    requires Inv(s) && me < |s.pcs| && s.pcs[me].Refreshing?
    ensures Inv(Sys(s.shared.(refreshing := s.shared.refreshing - {s.pcs[me].cache}), s.pcs[me := Returned]))
  {
    OwnersFrame(s.shared.owner, s.shared.closed, s.pcs, me, Returned);
    LockFrame(s.shared.lock, s.shared.owner, s.pcs, me, Returned);
    WaitersFrame(s.shared.owner, s.pcs, s.shared.owner, me, Returned);
    RefreshEnd(s.shared.refreshing, s.pcs, me);
  }

  lemma RenewOk(s: Sys, me: nat, cache: int)
    requires Inv(s) && me < |s.pcs| && s.pcs[me].Renewing? && cache !in s.shared.refreshing
    ensures Inv(Sys(s.shared.(refreshing := s.shared.refreshing[cache := |s.pcs|]), s.pcs[me := Returned] + [Refreshing(cache)]))
  {
    QuietOk(s, me, Returned);
    var t := s.(pcs := s.pcs[me := Returned]);
    SpawnOk(t, Returned);
    var u := t.(pcs := t.pcs + [Returned]);
    RefreshStartOk(u, |s.pcs|, cache);
    assert u.pcs[|s.pcs| := Refreshing(cache)] == s.pcs[me := Returned] + [Refreshing(cache)];
  }

  lemma EnterOk(s: Sys, me: nat, choice: Choice)
    requires Inv(s) && Enabled(s, Advance(me, choice)) && s.pcs[me].Entered?
    ensures Inv(Apply(s, Advance(me, choice)))
  {
    var (shared, pc, spawned) := Move(s.shared, me, |s.pcs|, s.pcs[me], choice);
    assert s.pcs[me := pc] + [] == s.pcs[me := pc];
    if choice.Go? && Key(choice.cache, s.pcs[me].timeout) !in s.shared.lock {
      AcquireOk(s, me, pc);
    } else {
      QuietOk(s, me, pc);
    }
  }

  lemma LookOk(s: Sys, me: nat, choice: Choice)
    requires Inv(s) && Enabled(s, Advance(me, choice))
    requires s.pcs[me].Looking? || s.pcs[me].Waiting? || s.pcs[me].Checking? || s.pcs[me].Querying?
    ensures Inv(Apply(s, Advance(me, choice)))
  {
    var (shared, pc, spawned) := Move(s.shared, me, |s.pcs|, s.pcs[me], choice);
    assert s.pcs[me := pc] + [] == s.pcs[me := pc];
    assert WatchOk(s.shared.owner, s.pcs[me]) by { assert s.pcs[me] in s.pcs; }
    QuietOk(s, me, pc);
  }

  lemma MoveOk(s: Sys, me: nat, choice: Choice)
    requires Inv(s) && Enabled(s, Advance(me, choice))
    ensures Inv(Apply(s, Advance(me, choice)))
  {
    var (shared, pc, spawned) := Move(s.shared, me, |s.pcs|, s.pcs[me], choice);
    assert s.pcs[me := pc] + [] == s.pcs[me := pc];
    match s.pcs[me]
    case Entered(_, _) => EnterOk(s, me, choice);
    case Releasing(_, held, _) =>
      if held.Some? {
        DeleteOk(s, me, pc);
      } else {
        QuietOk(s, me, pc);
      }
    case Closing(_, _, _) => CloseOk(s, me, pc);
    case Renewing(cache) =>
      if cache in s.shared.refreshing {
        QuietOk(s, me, pc);
      } else {
        RenewOk(s, me, cache);
      }
    case Refreshing(_) => RefreshEndOk(s, me);
    case _ => LookOk(s, me, choice);
  }

  lemma {:induction false} RunOk(s: Sys, steps: seq<Step>, t: Sys)
    requires Inv(s) && Runs(s, steps, t)
    ensures Inv(t)
    decreases |steps|
  {
    if steps != [] {
      match steps[0] {
        case Arrive(pc) => SpawnOk(s, pc);
        case Advance(me, choice) => MoveOk(s, me, choice);
      }
      RunOk(Apply(s, steps[0]), steps[1..], t);
    }
  }

  // ---------------------------------------------------------------- what every run keeps

  /** A key has at most one holder: two exchanges that hold one hold different ones. */
  lemma OneHolder(steps: seq<Step>, t: Sys, p: nat, q: nat)
    requires Runs(Start, steps, t) && p < q < |t.pcs|
    requires Holds(t.pcs[p]).Some? && Holds(t.pcs[q]).Some?
    ensures KeyOf(t.pcs[p]) != KeyOf(t.pcs[q])
  {
    RunOk(Start, steps, t);
  }

  /** No channel is closed twice, and a channel is closed exactly when its maker no longer owes the close. */
  lemma ClosedOnce(steps: seq<Step>, t: Sys, c: Channel)
    requires Runs(Start, steps, t) && c in t.shared.owner
    ensures !t.shared.broken && t.shared.owner[c] < |t.pcs|
    ensures c in t.shared.closed <==> Owes(t.pcs[t.shared.owner[c]]) != Some(c)
    ensures t.pcs[t.shared.owner[c]].Returned? ==> c in t.shared.closed && c !in t.shared.lock.Values
  {
    RunOk(Start, steps, t);
  }

  /** Every entry of the lock map belongs to an exchange that is still under way. */
  lemma EntriesHaveHolders(steps: seq<Step>, t: Sys, key: Key)
    requires Runs(Start, steps, t) && key in t.shared.lock
    ensures exists p :: 0 <= p < |t.pcs| && Holds(t.pcs[p]) == Some(t.shared.lock[key]) && KeyOf(t.pcs[p]) == key
  {
    RunOk(Start, steps, t);
    var p := t.shared.owner[t.shared.lock[key]];
    assert Holds(t.pcs[p]) == Some(t.shared.lock[key]);
  }

  /** When every exchange has returned, nothing is locked, every channel is closed and no refresh runs. */
  lemma NothingLeftBehind(steps: seq<Step>, t: Sys)
    requires Runs(Start, steps, t) && forall pc <- t.pcs :: pc.Returned?
    ensures t.shared.lock == map[] && t.shared.refreshing == map[] && t.shared.closed == t.shared.owner.Keys
  {
    RunOk(Start, steps, t);
    assert forall p :: 0 <= p < |t.pcs| ==> t.pcs[p].Returned?;
    assert forall key :: key !in t.shared.lock;
    assert forall cache :: cache !in t.shared.refreshing;
    assert forall c :: c in t.shared.owner ==> c in t.shared.closed;
  }

  lemma OneRefresh(steps: seq<Step>, t: Sys, p: nat, q: nat)
    requires Runs(Start, steps, t) && p < q < |t.pcs| && t.pcs[p].Refreshing? && t.pcs[q].Refreshing?
    ensures t.pcs[p].cache != t.pcs[q].cache
  {
    RunOk(Start, steps, t);
  }

  // ---------------------------------------------------------------- progress

  /** A waiter can go on, or the exchange it waits for is under way and waits for nobody. */
  lemma WaiterIsServed(steps: seq<Step>, t: Sys, p: nat, cache: int)
    requires Runs(Start, steps, t) && p < |t.pcs| && t.pcs[p].Waiting?
    ensures
      || Enabled(t, Advance(p, Go(cache)))
      || (var c := t.pcs[p].channel; c in t.shared.owner && Enabled(t, Advance(t.shared.owner[c], Go(cache))) && Owes(t.pcs[t.shared.owner[c]]) == Some(c))
  {
    RunOk(Start, steps, t);
    assert WatchOk(t.shared.owner, t.pcs[p]) by { assert t.pcs[p] in t.pcs; }
    var q := t.shared.owner[t.pcs[p].channel];
    assert WatchOk(t.shared.owner, t.pcs[q]) by { assert t.pcs[q] in t.pcs; }
  }

  /** Without any timeout, something can move until every exchange has returned. */
  lemma NotStuck(steps: seq<Step>, t: Sys, p: nat, cache: int)
    requires Runs(Start, steps, t) && p < |t.pcs| && !t.pcs[p].Returned?
    ensures exists q :: Enabled(t, Advance(q, Go(cache)))
  {
    if t.pcs[p].Waiting? {
      WaiterIsServed(steps, t, p, cache);
    } else {
      assert Enabled(t, Advance(p, Go(cache)));
    }
  }

  /** How many steps an exchange has left at most, with those of a refresh it may start. */
  function Rank(pc: Pc): nat {
    match pc
    case Entered(_, wait) => if wait then 11 else 13
    case Looking(_, _, cond, wait) => if cond.None? then 8 else if wait then 10 else 12
    case Waiting(_, _) => 9
    case Checking(_, _) => 7
    case Querying(_, _) => 6
    case Releasing(_, _, _) => 5
    case Closing(_, _, _) => 4
    case Renewing(_) => 3
    case Refreshing(_) => 1
    case Returned => 0
  }

  function TotalRank(pcs: seq<Pc>): nat {
    if pcs == [] then 0 else TotalRank(pcs[..|pcs| - 1]) + Rank(pcs[|pcs| - 1])
  }

  lemma {:induction false} RankUpdate(pcs: seq<Pc>, me: nat, pc: Pc)
    requires me < |pcs|
    ensures TotalRank(pcs[me := pc]) == TotalRank(pcs) - Rank(pcs[me]) + Rank(pc)
  {
    var n := |pcs| - 1;
    if me < n {
      assert pcs[me := pc][..n] == pcs[..n][me := pc];
      RankUpdate(pcs[..n], me, pc);
    } else {
      assert pcs[me := pc][..n] == pcs[..n];
    }
  }

  lemma MoveRank(s: Shared, me: nat, child: nat, pc: Pc, choice: Choice)
    requires Allowed(s, pc, choice)
    ensures
      var (_, next, spawned) := Move(s, me, child, pc, choice);
      |spawned| <= 1 && Rank(next) + (if spawned == [] then 0 else Rank(spawned[0])) < Rank(pc)
  {
  }

  lemma MoveDescends(s: Sys, me: nat, choice: Choice)
    requires Enabled(s, Advance(me, choice))
    ensures TotalRank(Apply(s, Advance(me, choice)).pcs) < TotalRank(s.pcs)
  {
    var (shared, pc, spawned) := Move(s.shared, me, |s.pcs|, s.pcs[me], choice);
    MoveRank(s.shared, me, |s.pcs|, s.pcs[me], choice);
    RankUpdate(s.pcs, me, pc);
    if spawned == [] {
      assert s.pcs[me := pc] + spawned == s.pcs[me := pc];
    } else {
      assert (s.pcs[me := pc] + spawned)[..|s.pcs|] == s.pcs[me := pc];
    }
  }

  /** Without new arrivals, a run has a bounded number of steps. */
  lemma {:induction false} ExchangesEnd(s: Sys, steps: seq<Step>, t: Sys)
    requires Runs(s, steps, t) && forall step <- steps :: step.Advance?
    ensures |steps| + TotalRank(t.pcs) <= TotalRank(s.pcs)
    decreases |steps|
  {
    if steps != [] {
      assert steps[0].Advance?;
      MoveDescends(s, steps[0].me, steps[0].choice);
      ExchangesEnd(Apply(s, steps[0]), steps[1..], t);
    }
  }
}
