/**
 The calls on the daemon's service as they run: each section under the service lock changes the fields in place, and
 between any two of them other callers may take any steps.
 */
module ServiceCalls {
  import opened Wrappers
  import opened ServiceLifecycle
  import opened ServiceEffects

  lemma {:induction false} RunsMore(s: Sys, steps: seq<Step>, t: Sys, step: Step)
    requires Runs(s, steps, t) && Enabled(t, step)
    ensures Runs(s, steps + [step], Apply(t, step))
    decreases |steps|
  {
    if steps == [] {
      assert [step][1..] == [] && steps + [step] == [step];
    } else {
      assert (steps + [step])[1..] == steps[1..] + [step];
      RunsMore(Apply(s, steps[0]), steps[1..], t, step);
    }
  }

  /** A step that is not a move of caller `me`. */
  predicate ByOthers(step: Step, me: nat) {
    step.Advance? ==> step.caller != me
  }

  /**
   What other callers leave alone: where `me` is; while it has the lifecycle lock, the instances, what is attached and,
   but for error reports, the status; and which instances were interrupted, once its own cannot be any more.
   */
  ghost predicate Undisturbed(me: nat, s: Sys, t: Sys) {
    && me in s.pcs && me in t.pcs && t.pcs[me] == s.pcs[me]
    && (s.lock == Some(me) ==> t.lock == s.lock && t.live == s.live && t.published == s.published && t.next == s.next)
    && (s.lock == Some(me) ==> t.f.instance == s.f.instance && (t.f.status == s.f.status || t.f.status == Fatal))
    && (s.lock == Some(me) && (s.pcs[me].Leaving? || s.pcs[me].Discarding?) ==> t.cancelled == s.cancelled)
    && (s.f.closed ==> t.f.closed)
  }

  lemma OthersHarmless(s: Sys, step: Step, me: nat)
    requires Inv(s) && Enabled(s, step) && ByOthers(step, me) && me in s.pcs
    ensures Undisturbed(me, s, Apply(s, step))
  {
  }

  lemma BootFacts(s: Sys, me: nat, id: nat)
    requires me in s.pcs && s.pcs[me].Booted? && s.pcs[me].id == id && exists steps :: Runs(Fresh, steps, s)
    ensures id !in s.published && s.live == {id} && s.f.instance == Some(id) && (s.f.interrupted <==> id in s.cancelled)
  {
    var steps :| Runs(Fresh, steps, s);
    RunOk(Fresh, steps, s);
  }

  lemma CloseFacts(s: Sys, me: nat)
    requires me in s.pcs && s.pcs[me].CloseEntered? && exists steps :: Runs(Fresh, steps, s)
    ensures s.live == (if s.f.instance.Some? then {s.f.instance.value} else {}) && s.f.status != Stopping
    ensures s.f.instance.Some? ==> s.f.instance.value < s.next
  {
    var steps :| Runs(Fresh, steps, s);
    RunOk(Fresh, steps, s);
    StatusTells(steps, s);
  }

  /** How a start ends. */
  datatype StartEnding = Refused | NotCreated | Interrupted(id: nat) | NotBooted(id: nat) | Running(id: nat)

  class Service {
    // under the service lock
    var status: Status
    var instance: Option<nat>
    var closed: bool
    var interrupted: bool
    var cancelled: set<nat>

    // the lifecycle lock, the callers and the instances
    var lock: Option<nat>
    var pcs: map<nat, Pc>
    var live: set<nat>
    var published: set<nat>
    var next: nat

    /** The steps taken so far. */
    ghost var trace: seq<Step>

    function View(): Fields
      reads this
    {
      Fields(status, instance, closed, interrupted)
    }

    function State(): Sys
      reads this
    {
      Sys(View(), lock, pcs, live, cancelled, published, next)
    }

    ghost predicate Valid()
      reads this
    {
      Runs(Fresh, trace, State())
    }

    constructor ()
      ensures Valid() && State() == Fresh
    {
      status, instance, closed, interrupted, cancelled := Idle, None, false, false, {};
      lock, pcs, live, published, next, trace := None, map[], {}, {}, 0, [];
    }

    // ---------------------------------------------------------------- sections under the service lock

    method InterruptStart()
      modifies this`interrupted, this`cancelled
      ensures State() == ServiceLifecycle.Interrupted(old(State()))
    {
      if status == Starting && instance.Some? {
        interrupted := true;
        cancelled := cancelled + {instance.value};
      }
    }

    /** The first section of a start. Returns the instance to close first, if there is one. */
    method EnterStart() returns (refused: bool, previous: Option<nat>)
      modifies this`instance, this`status, this`interrupted
      ensures View() == BeginStart(old(View()))
      ensures refused == old(closed) && previous == if refused then None else old(instance)
    {
      if closed {
        return true, None;
      }
      previous := instance;
      if previous.Some? {
        instance := None;
        status := Stopping;
      } else {
        interrupted := false;
        status := Starting;
      }
      refused := false;
    }

    /** The last section of a start. True: the instance has to be closed again. */
    method LeaveStart(ok: bool) returns (discard: bool)
      modifies this`instance, this`status, this`interrupted
      ensures View() == ConcludeStart(old(View()), ok)
      ensures discard <==> old(interrupted) || !ok
    {
      if interrupted {
        interrupted := false;
        instance := None;
        return true;
      }
      if !ok {
        instance := None;
        status := Fatal;
        return true;
      }
      status := Started;
      return false;
    }

    /** The first section of a close. */
    method EnterClose() returns (proceed: bool, previous: Option<nat>)
      modifies this`instance, this`status
      ensures View() == BeginClose(old(View()))
      ensures proceed == Closable(old(View())) && previous == old(instance)
    {
      previous := instance;
      if previous.None? && status != Starting && status != Started {
        return false, previous;
      }
      instance := None;
      status := Stopping;
      proceed := true;
    }

    /** Reports an error, whatever is under way. */
    method SetError()
      requires Valid()
      modifies this
      ensures Valid() && State() == old(State()).(f := old(View()).(status := Fatal))
    {
      ghost var before := State();
      RunsMore(Fresh, trace, before, ReportError);
      status := Fatal;
      trace := trace + [ReportError];
    }

    /** Shuts the service: no start is let in from now on. */
    method ShutDown()
      requires Valid()
      modifies this
      ensures Valid() && State() == old(State()).(f := old(View()).(closed := true))
    {
      ghost var before := State();
      RunsMore(Fresh, trace, before, Shut);
      closed := true;
      trace := trace + [Shut];
    }

    // ---------------------------------------------------------------- steps

    /** Records a move of a caller whose effect on the other fields has been made. */
    method Moved(me: nat, pc: Pc, ghost before: Sys, ghost ok: bool)
      requires Runs(Fresh, trace, before) && Enabled(before, Advance(me, ok))
      requires State().(pcs := pcs[me := pc]) == Move(before, me, ok)
      modifies this`pcs, this`trace
      ensures Valid() && State() == Move(before, me, ok) && View() == old(View())
    {
      pcs := pcs[me := pc];
      RunsMore(Fresh, trace, before, Advance(me, ok));
      trace := trace + [Advance(me, ok)];
    }

    /** Any step of the system. */
    method Perform(step: Step)
      requires Valid() && Enabled(State(), step)
      modifies this
      ensures Valid() && State() == Apply(old(State()), step)
    {
      RunsMore(Fresh, trace, State(), step);
      Assign(Apply(State(), step));
      trace := trace + [step];
    }

    method Assign(t: Sys)
      modifies this
      ensures State() == t && trace == old(trace)
    {
      status, instance, closed, interrupted := t.f.status, t.f.instance, t.f.closed, t.f.interrupted;
      lock, pcs, live, cancelled, published, next := t.lock, t.pcs, t.live, t.cancelled, t.published, t.next;
    }

    /** The other callers take any number of steps. */
    method Others(me: nat)
      requires Valid() && me in pcs
      modifies this
      ensures Valid() && Undisturbed(me, old(State()), State())
    {
      var n: nat := *;
      while n > 0
        invariant Valid() && Undisturbed(me, old(State()), State())
      {
        var step: Step := *;
        if Enabled(State(), step) && ByOthers(step, me) {
          RunOk(Fresh, trace, State());
          OthersHarmless(State(), step, me);
          Perform(step);
        }
        n := n - 1;
      }
    }

    /** A caller at one of the places behind the lifecycle lock. */
    ghost predicate Inside(me: nat, pc: Pc)
      reads this
    {
      Valid() && me in pcs && pcs[me] == pc && lock == Some(me)
    }

    /** The first section of any call. */
    method Interrupt(me: nat)
      requires Valid() && me in pcs && (pcs[me].StartCalled? || pcs[me].CloseCalled?)
      modifies this
      ensures Valid() && me in pcs && pcs[me] == if old(pcs[me]).StartCalled? then StartQueued else CloseQueued
    {
      Others(me);
      ghost var before := State();
      InterruptStart();
      Moved(me, if pcs[me].StartCalled? then StartQueued else CloseQueued, before, true);
    }

    /** Waits for the lifecycle lock. Whoever has it goes on until it leaves. */
    method Acquire(me: nat)
      requires Valid() && me in pcs && (pcs[me].StartQueued? || pcs[me].CloseQueued?)
      modifies this
      ensures Inside(me, if old(pcs[me]).StartQueued? then StartEntered else CloseEntered)
    {
      Others(me);
      while lock.Some?
        invariant Valid() && Undisturbed(me, old(State()), State())
        decreases if lock.Some? && lock.value in pcs then 1 + Distance(pcs[lock.value]) else 0
      {
        HolderMoves(me);
      }
      ghost var before := State();
      lock := Some(me);
      Moved(me, if pcs[me].StartQueued? then StartEntered else CloseEntered, before, true);
    }

    method HolderMoves(me: nat)
      requires Valid() && me in pcs && !Holding(pcs[me]) && lock.Some?
      modifies this
      ensures Valid() && Undisturbed(me, old(State()), State())
      ensures old(lock).value in old(pcs)
      ensures lock.Some? ==> lock == old(lock) && lock.value in pcs && Distance(pcs[lock.value]) < Distance(old(pcs)[old(lock).value])
    {
      RunOk(Fresh, trace, State());
      var ok: bool := *;
      OthersHarmless(State(), Advance(lock.value, ok), me);
      MoveAdvances(State(), lock.value, ok);
      Perform(Advance(lock.value, ok));
    }

    /** Closes an instance, outside the service lock. */
    method CloseInstance(me: nat, id: nat, after: Pc)
      requires (Inside(me, ClosingOld(id)) && after == OldClosed) || (Inside(me, Discarding(id)) && after == Leaving)
      modifies this
      ensures Inside(me, after) && live == old(live) - {id} && published == old(published) && next == old(next)
      ensures instance == old(instance) && (status == old(status) || status == Fatal) && (after.Leaving? ==> cancelled == old(cancelled))
    {
      Others(me);
      ghost var before := State();
      live := live - {id};
      Moved(me, after, before, true);
    }

    /** The beginning of a start, up to the point where it creates its instance. */
    method Prepare(me: nat) returns (refused: bool)
      requires Inside(me, StartEntered)
      modifies this
      ensures Inside(me, if refused then Leaving else Creating) && (refused ==> closed)
    {
      Others(me);
      ghost var before := State();
      var previous;
      refused, previous := EnterStart();
      Moved(me, if refused then Leaving else if previous.Some? then ClosingOld(previous.value) else Creating, before, true);
      if previous.Some? {
        CloseInstance(me, previous.value, OldClosed);
        Reopen(me);
      }
    }

    method Reopen(me: nat)
      requires Inside(me, OldClosed)
      modifies this
      ensures Inside(me, Creating)
    {
      Others(me);
      ghost var before := State();
      interrupted, status := false, Starting;
      Moved(me, Creating, before, true);
    }

    /** Creates an instance and attaches it, or reports that there is none. */
    method Create(me: nat, creates: bool) returns (id: nat)
      requires Inside(me, Creating)
      modifies this
      ensures Inside(me, if creates then Booting(id) else Leaving)
      ensures if creates then id < next else status == Fatal
    {
      Others(me);
      ghost var before := State();
      id := next;
      if creates {
        live, next := live + {id}, next + 1;
        Moved(me, Created(id), before, true);
        Attach(me, id);
      } else {
        Moved(me, CreateFailed, before, false);
        ReportFailure(me);
      }
    }

    method Attach(me: nat, id: nat)
      requires Inside(me, Created(id))
      modifies this
      ensures Inside(me, Booting(id)) && next == old(next)
    {
      Others(me);
      ghost var before := State();
      instance := Some(id);
      Moved(me, Booting(id), before, true);
    }

    method ReportFailure(me: nat)
      requires Inside(me, CreateFailed)
      modifies this
      ensures Inside(me, Leaving) && status == Fatal
    {
      Others(me);
      ghost var before := State();
      status := Fatal;
      Moved(me, Leaving, before, true);
    }

    /** Boots the instance, publishes it or closes it again. */
    method Boot(me: nat, id: nat, boots: bool) returns (ending: StartEnding)
      requires Inside(me, Booting(id)) && id < next
      modifies this
      ensures Inside(me, Leaving) && id < next && EndsWith(ending, id, boots)
    {
      Others(me);
      ghost var before := State();
      Moved(me, Booted(id, boots), before, boots);
      ending := Conclude(me, id, boots);
    }

    /** How a start that has created its instance stands when it ends. */
    ghost predicate EndsWith(ending: StartEnding, id: nat, boots: bool)
      reads this
    {
      match ending
      case Running(i) =>
        i == id && boots && id in published && id !in cancelled && live == {id} && instance == Some(id) && (status == Started || status == Fatal)
      case Interrupted(i) => i == id && id in cancelled && id !in published && live == {} && instance == None
      case NotBooted(i) => i == id && !boots && id !in cancelled && id !in published && live == {} && instance == None && status == Fatal
      case _ => false
    }

    method Conclude(me: nat, id: nat, boots: bool) returns (ending: StartEnding)
      requires Inside(me, Booted(id, boots)) && id < next
      modifies this
      ensures Inside(me, Leaving) && id < next && EndsWith(ending, id, boots)
    {
      Others(me);
      BootFacts(State(), me, id);
      ghost var before := State();
      ending := if interrupted then Interrupted(id) else if boots then Running(id) else NotBooted(id);
      var discard := LeaveStart(boots);
      if discard {
        Moved(me, Discarding(id), before, true);
        CloseInstance(me, id, Leaving);
      } else {
        published := published + {id};
        Moved(me, Leaving, before, true);
      }
    }

    /** Leaves the lifecycle lock. */
    method Leave(me: nat)
      requires Inside(me, Leaving)
      modifies this
      ensures Valid() && me in pcs && pcs[me] == Gone && live == old(live) && published == old(published) && next == old(next)
      ensures instance == old(instance) && (status == old(status) || status == Fatal) && cancelled == old(cancelled)
      ensures old(closed) ==> closed
    {
      Others(me);
      ghost var before := State();
      lock := None;
      Moved(me, Gone, before, true);
    }

    /**
     Starts or reloads. A start whose instance was cancelled by another call ends interrupted, and only such a one; its
     instance and one that failed to boot were never published and are closed by the time it gives the lifecycle lock
     back. Otherwise its instance is the published, attached and only live one.
     */
    method StartOrReloadService(me: nat, creates: bool, boots: bool) returns (ending: StartEnding)
      requires Valid() && me !in pcs
      modifies this
      ensures Valid() && me in pcs && pcs[me] == Gone
      ensures
        match ending
        case Refused => closed
        case NotCreated => !creates && status == Fatal
        case _ => creates && ending.id < next && EndsWith(ending, ending.id, boots)
    {
      Perform(Call(me, true));
      Interrupt(me);
      Acquire(me);
      var refused := Prepare(me);
      if refused {
        ending := Refused;
      } else {
        var id := Create(me, creates);
        if creates {
          ending := Boot(me, id, boots);
        } else {
          ending := NotCreated;
        }
      }
      Leave(me);
    }

    /** Closes the instance there was, if any, before it gives the lifecycle lock back. */
    method CloseService(me: nat) returns (proceed: bool, previous: Option<nat>)
      requires Valid() && me !in pcs
      modifies this
      ensures Valid() && me in pcs && pcs[me] == Gone
      ensures live == {} && instance == None && (status == Idle || status == Fatal)
      ensures previous.Some? ==> proceed && previous.value < next
    {
      Perform(Call(me, false));
      Interrupt(me);
      Acquire(me);
      Others(me);
      ghost var before := State();
      CloseFacts(State(), me);
      proceed, previous := EnterClose();
      Moved(me, if proceed then ClosingCurrent(previous) else Leaving, before, true);
      if proceed {
        CloseCurrent(me, previous);
      }
      Leave(me);
    }

    method CloseCurrent(me: nat, previous: Option<nat>)
      requires Inside(me, ClosingCurrent(previous))
      modifies this
      ensures Inside(me, Leaving) && live == old(live) - (if previous.Some? then {previous.value} else {}) && instance == old(instance)
      ensures status == Idle && next == old(next)
    {
      Others(me);
      ghost var before := State();
      if previous.Some? {
        live := live - {previous.value};
      }
      Moved(me, CurrentClosed, before, true);
      BecomeIdle(me);
    }

    method BecomeIdle(me: nat)
      requires Inside(me, CurrentClosed)
      modifies this
      ensures Inside(me, Leaving) && live == old(live) && instance == old(instance) && status == Idle && next == old(next)
    {
      Others(me);
      ghost var before := State();
      status := Idle;
      Moved(me, Leaving, before, true);
    }
  }
}
