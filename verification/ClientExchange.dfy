/**
 An exchange of the DNS client as it runs: it changes the shared maps in place, and between any two of its steps other
 exchanges may take any steps. What the cache, the context and the transport answer is left open.
 */
module ClientExchange {
  import opened Wrappers
  import opened ClientFlight

  lemma {:induction false} RunsMore(s: Sys, steps: seq<Step>, t: Sys, step: Step)
    requires Runs(s, steps, t) && Enabled(t, step)
    ensures Runs(s, steps + [step], Apply(t, step))
    decreases |steps|
  {
    if steps == [] {
      assert [step][1..] == [] && steps + [step] == [step];
    } else {
      assert (steps + [step])[1..] == steps[1..] + [step];
      RunsMore(Apply(s, steps[0]), steps[1..], t, step);
    }
  }

  predicate ByOthers(step: Step, me: nat) {
    step.Advance? ==> step.me != me
  }

  /** What other exchanges leave alone: where `me` is, who made a channel, and that a channel is closed. */
  ghost predicate Undisturbed(me: nat, s: Sys, t: Sys) {
    && me < |s.pcs| <= |t.pcs| && t.pcs[me] == s.pcs[me]
    && s.shared.closed <= t.shared.closed
    && forall c :: c in s.shared.owner ==> c in t.shared.owner && t.shared.owner[c] == s.shared.owner[c]
  }

  lemma OthersHarmless(s: Sys, step: Step, me: nat)
    requires Inv(s) && Enabled(s, step) && ByOthers(step, me) && me < |s.pcs|
    ensures Undisturbed(me, s, Apply(s, step))
  {
  }

  class Client {
    var lock: map<Key, Channel>
    var owner: map<Channel, nat>
    var closed: set<Channel>
    var refreshing: map<int, nat>
    var next: Channel
    var broken: bool

    /** Where the exchanges are. */
    var pcs: seq<Pc>

    /** The steps taken so far. */
    ghost var trace: seq<Step>

    function View(): Shared
      reads this
    {
      Shared(lock, owner, closed, refreshing, next, broken)
    }

    function State(): Sys
      reads this
    {
      Sys(View(), pcs)
    }

    ghost predicate Valid()
      reads this
    {
      Runs(Start, trace, State())
    }

    constructor ()
      ensures Valid() && State() == Start
    {
      lock, owner, closed, refreshing, next, broken := map[], map[], {}, map[], 0, false;
      pcs, trace := [], [];
    }

    // ---------------------------------------------------------------- the shared maps

    /** Loads the channel of a key, or stores a new one. */
    method LoadOrStore(key: Key, me: nat) returns (channel: Channel, loaded: bool)
      modifies this`lock, this`owner, this`next
      ensures View() == Acquired(old(View()), key, me)
      ensures loaded <==> key in old(lock)
      ensures key in lock && channel == lock[key] && (!loaded ==> channel == old(next))
    {
      if key in lock {
        return lock[key], true;
      }
      channel := next;
      next := next + 1;
      lock, owner := lock[key := channel], owner[channel := me];
      loaded := false;
    }

    method DeleteKey(key: Key)
      modifies this`lock
      ensures View() == Deleted(old(View()), key)
    {
      lock := lock - {key};
    }

    method CloseChannel(channel: Channel)
      modifies this`closed, this`broken
      ensures View() == ClosedOff(old(View()), channel)
    {
      broken := broken || channel in closed;
      closed := closed + {channel};
    }

    method BeginRefresh(cache: int, child: nat) returns (loaded: bool)
      modifies this`refreshing
      ensures loaded <==> cache in old(refreshing)
      ensures View() == if loaded then old(View()) else old(View()).(refreshing := old(refreshing)[cache := child])
    {
      loaded := cache in refreshing;
      if !loaded {
        refreshing := refreshing[cache := child];
      }
    }

    method EndRefresh(cache: int)
      modifies this`refreshing
      ensures View() == old(View()).(refreshing := old(refreshing) - {cache})
    {
      refreshing := refreshing - {cache};
    }

    // ---------------------------------------------------------------- steps

    /** Records a move of an exchange whose effect on the shared maps has been made. */
    method Moved(me: nat, pc: Pc, spawned: seq<Pc>, ghost before: Sys, ghost choice: Choice)
      requires Runs(Start, trace, before) && Enabled(before, Advance(me, choice))
      requires pcs == before.pcs && Move(before.shared, me, |before.pcs|, before.pcs[me], choice) == (View(), pc, spawned)
      modifies this`pcs, this`trace
      ensures Valid() && View() == old(View()) && me < |pcs| && pcs[me] == pc
    {
      pcs := pcs[me := pc] + spawned;
      RunsMore(Start, trace, before, Advance(me, choice));
      trace := trace + [Advance(me, choice)];
    }

    /** Any step of the system. */
    method Perform(step: Step)
      requires Valid() && Enabled(State(), step)
      modifies this
      ensures Valid() && State() == Apply(old(State()), step)
    {
      RunsMore(Start, trace, State(), step);
      Assign(Apply(State(), step));
      trace := trace + [step];
    }

    method Assign(t: Sys)
      modifies this
      ensures State() == t && trace == old(trace)
    {
      lock, owner, closed := t.shared.lock, t.shared.owner, t.shared.closed;
      refreshing, next, broken, pcs := t.shared.refreshing, t.shared.next, t.shared.broken, t.pcs;
    }

    /** The other exchanges take any number of steps. */
    method Others(me: nat)
      requires Valid() && me < |pcs|
      modifies this
      ensures Valid() && Undisturbed(me, old(State()), State())
    {
      var n: nat := *;
      while n > 0
        invariant Valid() && Undisturbed(me, old(State()), State())
      {
        var step: Step := *;
        if Enabled(State(), step) && ByOthers(step, me) {
          RunOk(Start, trace, State());
          OthersHarmless(State(), step, me);
          Perform(step);
        }
        n := n - 1;
      }
    }

    ghost predicate At(me: nat, pc: Pc)
      reads this
    {
      Valid() && me < |pcs| && pcs[me] == pc
    }

    // ---------------------------------------------------------------- the exchange

    /** The lock of the key, unless the exchange is over already or does not use the cache. */
    method Enter(me: nat)
      requires Valid() && me < |pcs| && pcs[me].Entered?
      modifies this
      ensures Valid() && me < |pcs| && Rank(pcs[me]) < Rank(old(pcs[me]))
      ensures pcs[me].Looking? || pcs[me].Checking? || pcs[me].Returned?
    {
      Others(me);
      ghost var before := State();
      var timeout, wait := pcs[me].timeout, pcs[me].wait;
      var choice: Choice := *;
      match choice
      case Bail => Moved(me, Returned, [], before, Bail);
      case Bypass => Moved(me, Checking(Key(0, timeout), None), [], before, Bypass);
      case Go(cache) => Lock(me, Key(cache, timeout), wait);
      case _ => Lock(me, Key(0, timeout), wait);
    }

    method Lock(me: nat, key: Key, wait: bool)
      requires At(me, Entered(key.timeout, wait))
      modifies this
      ensures Valid() && me < |pcs| && pcs[me].Looking? && Rank(pcs[me]) < Rank(Entered(key.timeout, wait))
    {
      ghost var before := State();
      var channel, loaded := LoadOrStore(key, me);
      if loaded {
        Moved(me, Looking(key, None, Some(channel), wait), [], before, Go(key.cache));
      } else {
        Moved(me, Looking(key, Some(channel), None, wait), [], before, Go(key.cache));
      }
    }

    /** Looks into the cache: a hit ends the exchange, a miss goes on, waits, or starts over to wait. */
    method LookUp(me: nat)
      requires Valid() && me < |pcs| && pcs[me].Looking?
      modifies this
      ensures Valid() && me < |pcs| && Rank(pcs[me]) < Rank(old(pcs[me]))
      ensures !pcs[me].Looking? && !pcs[me].Querying? && !pcs[me].Closing? && !pcs[me].Renewing? && !pcs[me].Refreshing?
    {
      Others(me);
      ghost var before := State();
      var pc := pcs[me];
      var choice: Choice := *;
      if choice.HitFresh? || choice.HitStale? {
        Moved(me, Releasing(pc.key, pc.held, choice.HitStale?), [], before, choice);
      } else if pc.cond.None? {
        Moved(me, Checking(pc.key, pc.held), [], before, Go(0));
      } else if !pc.wait {
        Moved(me, Entered(pc.key.timeout, true), [], before, Go(0));
      } else {
        Moved(me, Waiting(pc.key, pc.cond.value), [], before, Go(0));
      }
    }

    /** Waits for the channel of another exchange, or gives up. */
    method Await(me: nat)
      requires Valid() && me < |pcs| && pcs[me].Waiting?
      modifies this
      ensures Valid() && me < |pcs| && Rank(pcs[me]) < Rank(old(pcs[me]))
      ensures pcs[me].Returned? || pcs[me].Looking?
    {
      Others(me);
      var givesUp: bool := *;
      if !givesUp {
        AwaitClose(me);
      }
      ghost var before := State();
      var cache: int := *;
      if givesUp {
        Moved(me, Returned, [], before, Bail);
      } else {
        Moved(me, Looking(Key(cache, pcs[me].key.timeout), None, None, true), [], before, Go(cache));
      }
    }

    /** The exchange that made the channel goes on until it closes it. */
    method AwaitClose(me: nat)
      requires Valid() && me < |pcs| && pcs[me].Waiting?
      modifies this
      ensures Valid() && Undisturbed(me, old(State()), State()) && pcs[me].channel in closed
    {
      var channel := pcs[me].channel;
      Maker(State(), me, trace);
      while channel !in closed
        invariant Valid() && Undisturbed(me, old(State()), State()) && channel in owner && owner[channel] < |pcs|
        decreases if channel in closed then 0 else 1 + Rank(pcs[owner[channel]])
      {
        MakerMoves(me, channel);
      }
    }

    method MakerMoves(me: nat, channel: Channel)
      requires Valid() && me < |pcs| && pcs[me].Waiting? && pcs[me].channel == channel && channel !in closed
      modifies this
      ensures Valid() && Undisturbed(me, old(State()), State())
      ensures channel in old(owner) && old(owner)[channel] < |old(pcs)| && channel in owner && owner[channel] < |pcs|
      ensures channel in closed || Rank(pcs[owner[channel]]) < Rank(old(pcs)[old(owner)[channel]])
    {
      Maker(State(), me, trace);
      RunOk(Start, trace, State());
      var maker := owner[channel];
      var choice: Choice := *;
      if !Allowed(View(), pcs[maker], choice) {
        choice := Go(0);
      }
      OthersHarmless(State(), Advance(maker, choice), me);
      MoveRank(View(), maker, |pcs|, pcs[maker], choice);
      Perform(Advance(maker, choice));
    }

    /** Loopback and responses known to be rejected end the exchange; otherwise the query is sent and answered. */
    method CheckAndQuery(me: nat)
      requires Valid() && me < |pcs| && pcs[me].Checking?
      modifies this
      ensures Valid() && me < |pcs| && pcs[me].Releasing?
    {
      Others(me);
      ghost var before := State();
      var pc := pcs[me];
      var rejected: bool := *;
      if rejected {
        Moved(me, Releasing(pc.key, pc.held, false), [], before, Bail);
      } else {
        Moved(me, Querying(pc.key, pc.held), [], before, Go(0));
        Query(me);
      }
    }

    method Query(me: nat)
      requires Valid() && me < |pcs| && pcs[me].Querying?
      modifies this
      ensures Valid() && me < |pcs| && pcs[me].Releasing?
    {
      Others(me);
      ghost var before := State();
      Moved(me, Releasing(pcs[me].key, pcs[me].held, false), [], before, Go(0));
    }

    /** Deletes the key and closes the channel, if the exchange holds one. After a stale hit a refresh is due. */
    method Release(me: nat)
      requires Valid() && me < |pcs| && pcs[me].Releasing?
      modifies this
      ensures At(me, if old(pcs[me]).stale then Renewing(old(pcs[me]).key.cache) else Returned)
    {
      Others(me);
      ghost var before := State();
      var pc := pcs[me];
      if pc.held.None? {
        Moved(me, Released(pc.key, pc.stale), [], before, Go(0));
      } else {
        DeleteKey(pc.key);
        Moved(me, Closing(pc.key, pc.held.value, pc.stale), [], before, Go(0));
        Wake(me);
      }
    }

    method Wake(me: nat)
      requires Valid() && me < |pcs| && pcs[me].Closing?
      modifies this
      ensures At(me, if old(pcs[me]).stale then Renewing(old(pcs[me]).key.cache) else Returned)
    {
      Others(me);
      ghost var before := State();
      var pc := pcs[me];
      CloseChannel(pc.channel);
      Moved(me, Released(pc.key, pc.stale), [], before, Go(0));
    }

    /** A stale answer starts a refresh, unless there is one. */
    method Renew(me: nat)
      requires Valid() && me < |pcs| && pcs[me].Renewing?
      modifies this
      ensures At(me, Returned) && old(pcs[me]).cache in refreshing
    {
      Others(me);
      ghost var before := State();
      var cache := pcs[me].cache;
      var loaded := BeginRefresh(cache, |pcs|);
      Moved(me, Returned, if loaded then [] else [Refreshing(cache)], before, Go(0));
    }

    /** A background refresh: whatever comes of its query, it makes way for the next one of its key. */
    method Refresh(me: nat)
      requires Valid() && me < |pcs| && pcs[me].Refreshing?
      modifies this
      ensures Valid() && me < |pcs| && pcs[me].Returned? && old(pcs[me]).cache !in refreshing
    {
      Others(me);
      ghost var before := State();
      var cache := pcs[me].cache;
      EndRefresh(cache);
      Moved(me, Returned, [], before, Go(0));
    }

    /** The first part of an exchange: it is over, or has a query to send, or a key to release. */
    method BeginExchange(me: nat)
      requires Valid() && me < |pcs| && pcs[me].Entered?
      modifies this
      ensures Valid() && me < |pcs| && (pcs[me].Checking? || pcs[me].Releasing? || pcs[me].Returned?)
    {
      while pcs[me].Entered? || pcs[me].Looking? || pcs[me].Waiting?
        invariant Valid() && me < |pcs|
        invariant !pcs[me].Querying? && !pcs[me].Closing? && !pcs[me].Renewing? && !pcs[me].Refreshing?
        decreases Rank(pcs[me])
      {
        if pcs[me].Entered? {
          Enter(me);
        } else if pcs[me].Looking? {
          LookUp(me);
        } else {
          Await(me);
        }
      }
    }

    /**
     A whole exchange, synchronous (`wait`) or not. On every path it returns, holds no key, and has closed every
     channel it made. If it was served a stale answer, the key of that answer is being refreshed.
     */
    method Exchange(timeout: int, wait: bool) returns (me: nat, stale: Option<int>)
      requires Valid()
      modifies this
      ensures Valid() && me < |pcs| && pcs[me].Returned?
      ensures forall key :: key in lock ==> lock[key] in owner && owner[lock[key]] != me
      ensures forall c :: c in owner && owner[c] == me ==> c in closed
      ensures stale.Some? ==> stale.value in refreshing
    {
      me, stale := |pcs|, None;
      Perform(Arrive(Entered(timeout, wait)));
      BeginExchange(me);
      if pcs[me].Checking? {
        CheckAndQuery(me);
      }
      if pcs[me].Releasing? {
        if pcs[me].stale {
          stale := Some(pcs[me].key.cache);
        }
        Release(me);
      }
      if stale.Some? {
        Renew(me);
      }
      ReturnedHoldsNothing(State(), trace, me);
    }
  }

  lemma ReturnedHoldsNothing(s: Sys, steps: seq<Step>, me: nat)
    requires Runs(Start, steps, s) && me < |s.pcs| && s.pcs[me].Returned?
    ensures forall key :: key in s.shared.lock ==> s.shared.lock[key] in s.shared.owner && s.shared.owner[s.shared.lock[key]] != me
    ensures forall c :: c in s.shared.owner && s.shared.owner[c] == me ==> c in s.shared.closed
  {
    RunOk(Start, steps, s);
  }

  /** The exchange behind a channel that is waited for can move, and is not the one that waits. */
  lemma Maker(s: Sys, me: nat, steps: seq<Step>)
    requires Runs(Start, steps, s) && me < |s.pcs| && s.pcs[me].Waiting?
    ensures
      var c := s.pcs[me].channel;
      && c in s.shared.owner && s.shared.owner[c] < |s.pcs|
      && (c !in s.shared.closed ==> s.shared.owner[c] != me && forall cache :: Allowed(s.shared, s.pcs[s.shared.owner[c]], Go(cache)))
  {
    RunOk(Start, steps, s);
    WaiterIsServed(steps, s, me, 0);
    assert s.pcs[me] in s.pcs;
  }
}
