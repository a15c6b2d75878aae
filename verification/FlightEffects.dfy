/** What an exchange of the DNS client brings about: refreshes after stale answers, and one query at a time. */
module FlightEffects {
  import opened Wrappers
  import opened ClientFlight

  // ---------------------------------------------------------------- who starts and ends a refresh

  /** A refresh is entered exactly by an exchange that was served stale, and leaves exactly when it is over. */
  lemma WhoRefreshes(s: Sys, step: Step, cache: int)
    requires Enabled(s, step)
    ensures cache in Apply(s, step).shared.refreshing <==>
      if cache in s.shared.refreshing then !(step.Advance? && s.pcs[step.me] == Refreshing(cache))
      else step.Advance? && s.pcs[step.me] == Renewing(cache)
  {
  }

  /** Other exchanges' steps do not move an exchange. */
  lemma StaysPut(s: Sys, step: Step, me: nat)
    requires Enabled(s, step) && me < |s.pcs| && (step.Advance? ==> step.me != me)
    ensures me < |Apply(s, step).pcs| && Apply(s, step).pcs[me] == s.pcs[me]
  {
  }

  // ---------------------------------------------------------------- after a stale hit

  /** The exchange was served stale under this cache key, and has not passed the place where it starts a refresh. */
  predicate OwesRefresh(pc: Pc, cache: int) {
    match pc
    case Releasing(key, _, stale) => stale && key.cache == cache
    case Closing(key, _, stale) => stale && key.cache == cache
    case Renewing(c) => c == cache
    case _ => false
  }

  /** On the way from s to t there is a state in which the key is being refreshed. */
  ghost predicate Refreshes(s: Sys, steps: seq<Step>, cache: int)
    decreases |steps|
  {
    cache in s.shared.refreshing || (steps != [] && Enabled(s, steps[0]) && Refreshes(Apply(s, steps[0]), steps[1..], cache))
  }

  lemma OwedStep(s: Sys, step: Step, me: nat, cache: int)
    requires Enabled(s, step) && me < |s.pcs| && OwesRefresh(s.pcs[me], cache)
    ensures me < |Apply(s, step).pcs|
    ensures OwesRefresh(Apply(s, step).pcs[me], cache) || cache in Apply(s, step).shared.refreshing || cache in s.shared.refreshing
  {
    if !(step.Advance? && step.me == me) {
      StaysPut(s, step, me);
    }
  }

  lemma {:induction false} OwedIsPaid(s: Sys, steps: seq<Step>, t: Sys, me: nat, cache: int)
    requires Runs(s, steps, t) && me < |s.pcs| && OwesRefresh(s.pcs[me], cache) && me < |t.pcs| && t.pcs[me].Returned?
    ensures Refreshes(s, steps, cache)
    decreases |steps|
  {
    if steps != [] && cache !in s.shared.refreshing {
      OwedStep(s, steps[0], me, cache);
      var next := Apply(s, steps[0]);
      if cache !in next.shared.refreshing {
        OwedIsPaid(next, steps[1..], t, me, cache);
      }
    }
  }

  /** A stale answer leads to a refresh: by the time the exchange has returned, the key was being refreshed. */
  lemma StaleIsRefreshed(s: Sys, me: nat, steps: seq<Step>, t: Sys)
    requires me < |s.pcs| && s.pcs[me].Looking? && Enabled(s, Advance(me, HitStale))
    requires Runs(Apply(s, Advance(me, HitStale)), steps, t) && me < |t.pcs| && t.pcs[me].Returned?
    ensures Refreshes(Apply(s, Advance(me, HitStale)), steps, s.pcs[me].key.cache)
  {
    OwedIsPaid(Apply(s, Advance(me, HitStale)), steps, t, me, s.pcs[me].key.cache);
  }

  // ---------------------------------------------------------------- after a fresh hit or a miss

  /** The exchange can no longer be served stale. */
  predicate PastStale(pc: Pc) {
    match pc
    case Checking(_, _) => true
    case Querying(_, _) => true
    case Releasing(_, _, stale) => !stale
    case Closing(_, _, stale) => !stale
    case Returned => true
    case _ => false
  }

  lemma {:induction false} PastStaleStays(s: Sys, steps: seq<Step>, t: Sys, me: nat)
    requires Runs(s, steps, t) && me < |s.pcs| && PastStale(s.pcs[me])
    ensures me < |t.pcs| && PastStale(t.pcs[me])
    decreases |steps|
  {
    if steps != [] {
      if !(steps[0].Advance? && steps[0].me == me) {
        StaysPut(s, steps[0], me);
      }
      PastStaleStays(Apply(s, steps[0]), steps[1..], t, me);
    }
  }

  /** A fresh hit, or a miss that goes on to query, starts no refresh: the exchange is never where one is started. */
  lemma FreshStartsNothing(s: Sys, me: nat, choice: Choice, steps: seq<Step>, t: Sys)
    requires me < |s.pcs| && s.pcs[me].Looking? && Enabled(s, Advance(me, choice))
    requires choice.HitFresh? || (choice.Go? && s.pcs[me].cond.None?)
    requires Runs(Apply(s, Advance(me, choice)), steps, t)
    ensures me < |t.pcs| && !t.pcs[me].Renewing?
  {
    PastStaleStays(Apply(s, Advance(me, choice)), steps, t, me);
  }

  // ---------------------------------------------------------------- one query at a time

  /** The exchange found the channel of another one, and does not query before that channel is closed. */
  predicate HeldBack(pc: Pc, c: Channel) {
    match pc
    case Looking(_, held, cond, wait) => held.None? && cond == Some(c) && wait
    case Waiting(_, channel) => channel == c
    case Releasing(_, _, _) => true
    case Closing(_, _, _) => true
    case Renewing(_) => true
    case Returned => true
    case _ => false
  }

  lemma HeldBackStep(s: Sys, step: Step, me: nat, c: Channel)
    requires Enabled(s, step) && me < |s.pcs| && (HeldBack(s.pcs[me], c) || c in s.shared.closed)
    ensures me < |Apply(s, step).pcs| && (HeldBack(Apply(s, step).pcs[me], c) || c in Apply(s, step).shared.closed)
  {
    if !(step.Advance? && step.me == me) {
      StaysPut(s, step, me);
    }
  }

  lemma {:induction false} HeldBackRun(s: Sys, steps: seq<Step>, t: Sys, me: nat, c: Channel)
    requires Runs(s, steps, t) && me < |s.pcs| && (HeldBack(s.pcs[me], c) || c in s.shared.closed)
    ensures me < |t.pcs| && (HeldBack(t.pcs[me], c) || c in t.shared.closed)
    decreases |steps|
  {
    if steps != [] {
      HeldBackStep(s, steps[0], me, c);
      HeldBackRun(Apply(s, steps[0]), steps[1..], t, me, c);
    }
  }

  /** An exchange that may wait and finds its key taken does not query before the holder of the key has let go of it. */
  lemma WaitsForHolder(s: Sys, me: nat, cache: int, steps: seq<Step>, t: Sys)
    requires me < |s.pcs| && s.pcs[me].Entered? && s.pcs[me].wait && Key(cache, s.pcs[me].timeout) in s.shared.lock
    requires Runs(Apply(s, Advance(me, Go(cache))), steps, t)
    ensures me < |t.pcs| && (t.pcs[me].Querying? ==> s.shared.lock[Key(cache, s.pcs[me].timeout)] in t.shared.closed)
  {
    HeldBackRun(Apply(s, Advance(me, Go(cache))), steps, t, me, s.shared.lock[Key(cache, s.pcs[me].timeout)]);
  }

  /** One that may not wait starts over as one that may. */
  lemma StartsOver(s: Sys, me: nat, cache: int, other: int)
    requires me < |s.pcs| && s.pcs[me].Entered? && !s.pcs[me].wait && Key(cache, s.pcs[me].timeout) in s.shared.lock
    ensures
      var u := Apply(s, Advance(me, Go(cache)));
      && Enabled(u, Advance(me, Go(other))) && u.shared == s.shared
      && Apply(u, Advance(me, Go(other))) == s.(pcs := s.pcs[me := Entered(s.pcs[me].timeout, true)])
  {
    var u := Apply(s, Advance(me, Go(cache)));
    assert u.pcs == s.pcs[me := u.pcs[me]];
    assert Apply(u, Advance(me, Go(other))).pcs == s.pcs[me := Entered(s.pcs[me].timeout, true)];
  }
}
