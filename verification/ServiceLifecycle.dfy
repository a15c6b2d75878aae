/**
 Start, reload, close and error calls on the daemon's service, by any number of concurrent callers.

 Each section under the service lock is one step. The lifecycle lock is a field: a caller that waits for it cannot
 move until it is free. Closing and booting an instance happen outside the service lock, so other callers' steps may
 fall in between.
 */
module ServiceLifecycle {
  import opened Wrappers

  datatype Status = Idle | Starting | Started | Stopping | Fatal

  /** The fields the service lock protects. Instances are numbered in the order they are created. */
  datatype Fields = Fields(status: Status, instance: Option<nat>, closed: bool, interrupted: bool)

  // ---------------------------------------------------------------- the sections under the service lock

  /** Asks a start that is under way to give up. */
  function Interrupt(f: Fields): Fields {
    if f.status == Starting && f.instance.Some? then f.(interrupted := true) else f
  }

  function BeginStart(f: Fields): Fields {
    if f.closed then f
    else if f.instance.Some? then f.(instance := None, status := Stopping)
    else PublishStarting(f)
  }

  function PublishStarting(f: Fields): Fields {
    f.(interrupted := false, status := Starting)
  }

  /** The new instance has booted, or failed to. */
  function ConcludeStart(f: Fields, ok: bool): Fields {
    if f.interrupted then f.(interrupted := false, instance := None)
    else if !ok then f.(instance := None, status := Fatal)
    else f.(status := Started)
  }

  /** There is something to close. */
  predicate Closable(f: Fields) {
    f.instance.Some? || f.status == Starting || f.status == Started
  }

  function BeginClose(f: Fields): Fields {
    if Closable(f) then f.(instance := None, status := Stopping) else f
  }

  // ---------------------------------------------------------------- the callers

  /** Where a caller is. */
  datatype Pc =
    | StartCalled
    | StartQueued
    | StartEntered
    | ClosingOld(id: nat)
    | OldClosed
    | Creating
    | CreateFailed
    | Created(id: nat)
    | Booting(id: nat)
    | Booted(id: nat, ok: bool)
    | Discarding(id: nat)
    | CloseCalled
    | CloseQueued
    | CloseEntered
    | ClosingCurrent(current: Option<nat>)
    | CurrentClosed
    | Leaving
    | Gone

  predicate Holding(pc: Pc) {
    !pc.StartCalled? && !pc.StartQueued? && !pc.CloseCalled? && !pc.CloseQueued? && !pc.Gone?
  }

  /**
   The whole system. `live` are the instances that were created and not closed, `cancelled` those a caller has
   interrupted, `published` those that were announced as started.
   */
  datatype Sys = Sys(f: Fields, lock: Option<nat>, pcs: map<nat, Pc>, live: set<nat>, cancelled: set<nat>, published: set<nat>, next: nat)

  datatype Step = Call(caller: nat, start: bool) | Advance(caller: nat, ok: bool) | ReportError | Shut

  const Fresh := Sys(Fields(Idle, None, false, false), None, map[], {}, {}, {}, 0)

  predicate Enabled(s: Sys, step: Step) {
    match step
    case Call(c, _) => c !in s.pcs
    case Advance(c, _) =>
      c in s.pcs && !s.pcs[c].Gone? && (s.pcs[c].StartQueued? || s.pcs[c].CloseQueued? ==> s.lock.None?)
    case ReportError => true
    case Shut => true
  }

  function At(s: Sys, c: nat, pc: Pc): Sys {
    s.(pcs := s.pcs[c := pc])
  }

  function Interrupted(s: Sys): Sys {
    s.(f := Interrupt(s.f), cancelled := s.cancelled + if s.f.status == Starting && s.f.instance.Some? then {s.f.instance.value} else {})
  }

  /** The next step of a caller. `ok` decides whether creating or booting an instance succeeds. */
  function Move(s: Sys, c: nat, ok: bool): Sys
    requires c in s.pcs
  {
    match s.pcs[c]
    case StartCalled => At(Interrupted(s), c, StartQueued)
    case StartQueued => At(s.(lock := Some(c)), c, StartEntered)
    case StartEntered =>
      At(s.(f := BeginStart(s.f)), c,
         if s.f.closed then Leaving else if s.f.instance.Some? then ClosingOld(s.f.instance.value) else Creating)
    case ClosingOld(id) => At(s.(live := s.live - {id}), c, OldClosed)
    case OldClosed => At(s.(f := PublishStarting(s.f)), c, Creating)
    case Creating =>
      if ok then At(s.(live := s.live + {s.next}, next := s.next + 1), c, Created(s.next)) else At(s, c, CreateFailed)
    case CreateFailed => At(s.(f := s.f.(status := Fatal)), c, Leaving)
    case Created(id) => At(s.(f := s.f.(instance := Some(id))), c, Booting(id))
    case Booting(id) => At(s, c, Booted(id, ok))
    case Booted(id, booted) =>
      var done := s.(f := ConcludeStart(s.f, booted));
      if s.f.interrupted || !booted then At(done, c, Discarding(id))
      else At(done.(published := s.published + {id}), c, Leaving)
    case Discarding(id) => At(s.(live := s.live - {id}), c, Leaving)
    case CloseCalled => At(Interrupted(s), c, CloseQueued)
    case CloseQueued => At(s.(lock := Some(c)), c, CloseEntered)
    case CloseEntered => At(s.(f := BeginClose(s.f)), c, if Closable(s.f) then ClosingCurrent(s.f.instance) else Leaving)
    case ClosingCurrent(current) => At(s.(live := s.live - if current.Some? then {current.value} else {}), c, CurrentClosed)
    case CurrentClosed => At(s.(f := s.f.(status := Idle)), c, Leaving)
    case Leaving => At(s.(lock := None), c, Gone)
    case Gone => s
  }

  function Apply(s: Sys, step: Step): Sys
    requires Enabled(s, step)
  {
    match step
    case Call(c, start) => At(s, c, if start then StartCalled else CloseCalled)
    case Advance(c, ok) => Move(s, c, ok)
    case ReportError => s.(f := s.f.(status := Fatal))
    case Shut => s.(f := s.f.(closed := true))
  }

  predicate Runs(s: Sys, steps: seq<Step>, t: Sys)
    decreases |steps|
  {
    if steps == [] then s == t else Enabled(s, steps[0]) && Runs(Apply(s, steps[0]), steps[1..], t)
  }

  // ---------------------------------------------------------------- the invariant

  function Only(id: Option<nat>): set<nat> {
    if id.Some? then {id.value} else {}
  }

  /** What holds while nobody is in the middle of a start or close. */
  predicate Settled(f: Fields, live: set<nat>) {
    live == Only(f.instance) && !f.interrupted && !(f.status == Starting && f.instance.Some?) && (f.status == Started ==> f.instance.Some?)
  }

  /** No instance is published, and exactly these are alive. */
  predicate Between(f: Fields, live: set<nat>, expected: set<nat>) {
    f.instance.None? && f.status != Started && live == expected && !f.interrupted
  }

  /** What the holder of the lifecycle lock can rely on. */
  predicate HolderOk(f: Fields, live: set<nat>, cancelled: set<nat>, published: set<nat>, pc: Pc) {
    match pc
    case StartEntered => Settled(f, live)
    case CloseEntered => Settled(f, live)
    case Leaving => Settled(f, live)
    case ClosingOld(id) => Between(f, live, {id})
    case OldClosed => Between(f, live, {})
    case Creating => Between(f, live, {})
    case CreateFailed => Between(f, live, {})
    case Created(id) => Between(f, live, {id}) && id !in cancelled && id !in published
    case Booting(id) => BootOk(f, live, cancelled, published, id)
    case Booted(id, _) => BootOk(f, live, cancelled, published, id)
    case Discarding(id) => Between(f, live, {id})
    case ClosingCurrent(current) => Between(f, live, Only(current))
    case CurrentClosed => Between(f, live, {})
    case StartCalled => true
    case StartQueued => true
    case CloseCalled => true
    case CloseQueued => true
    case Gone => true
  }

  /** A booting instance is attached; the start will notice exactly if it was interrupted. */
  predicate BootOk(f: Fields, live: set<nat>, cancelled: set<nat>, published: set<nat>, id: nat) {
    f.instance == Some(id) && live == {id} && f.status != Started && (id in cancelled <==> f.interrupted) && id !in published
  }

  ghost predicate Inv(s: Sys) {
    && (s.lock.Some? ==> s.lock.value in s.pcs && Holding(s.pcs[s.lock.value]))
    && (forall c :: c in s.pcs && Holding(s.pcs[c]) ==> s.lock == Some(c))
    && (if s.lock.Some? then HolderOk(s.f, s.live, s.cancelled, s.published, s.pcs[s.lock.value]) else Settled(s.f, s.live))
    && (forall id :: id in s.live || id in s.cancelled || id in s.published ==> id < s.next)
    && s.published !! s.cancelled
    && (s.f.instance.Some? && s.f.status == Started ==> s.f.instance.value in s.published)
  }

  lemma InterruptOk(s: Sys)
    requires Inv(s)
    ensures Inv(Interrupted(s))
  {
    if s.f.status == Starting && s.f.instance.Some? {
      assert s.lock.Some?;
    }
  }

  lemma MoveOk(s: Sys, c: nat, ok: bool)
    requires Inv(s) && Enabled(s, Advance(c, ok))
    ensures Inv(Move(s, c, ok))
  {
    if s.pcs[c].StartCalled? || s.pcs[c].CloseCalled? {
      InterruptOk(s);
    } else if !Holding(s.pcs[c]) {
    } else {
      assert s.lock == Some(c);
      HolderMoveOk(s, c, ok);
    }
  }

  /** Locks and numbering after a move of the lock holder. */
  lemma LockOk(s: Sys, t: Sys, c: nat, pc: Pc)
    requires Inv(s) && s.lock == Some(c) && t.pcs == s.pcs[c := pc]
    requires if Holding(pc) then t.lock == s.lock else t.lock.None?
    ensures t.lock.Some? ==> t.lock.value in t.pcs && Holding(t.pcs[t.lock.value])
    ensures forall d :: d in t.pcs && Holding(t.pcs[d]) ==> t.lock == Some(d)
  {
  }

  lemma BootMoveOk(s: Sys, c: nat, ok: bool)
    requires Inv(s) && s.lock == Some(c)
    requires s.pcs[c].Creating? || s.pcs[c].Created? || s.pcs[c].Booting? || s.pcs[c].Booted?
    ensures Inv(Move(s, c, ok))
  {
    LockOk(s, Move(s, c, ok), c, Move(s, c, ok).pcs[c]);
  }

  lemma StartMoveOk(s: Sys, c: nat, ok: bool)
    requires Inv(s) && s.lock == Some(c)
    requires s.pcs[c].StartEntered? || s.pcs[c].ClosingOld? || s.pcs[c].OldClosed? || s.pcs[c].CreateFailed? || s.pcs[c].Discarding?
    ensures Inv(Move(s, c, ok))
  {
    LockOk(s, Move(s, c, ok), c, Move(s, c, ok).pcs[c]);
  }

  lemma CloseMoveOk(s: Sys, c: nat, ok: bool)
    requires Inv(s) && s.lock == Some(c)
    requires s.pcs[c].CloseEntered? || s.pcs[c].ClosingCurrent? || s.pcs[c].CurrentClosed? || s.pcs[c].Leaving?
    ensures Inv(Move(s, c, ok))
  {
    LockOk(s, Move(s, c, ok), c, Move(s, c, ok).pcs[c]);
  }

  lemma HolderMoveOk(s: Sys, c: nat, ok: bool)
    requires Inv(s) && s.lock == Some(c)
    ensures Inv(Move(s, c, ok))
  {
    match s.pcs[c]
    case Creating => BootMoveOk(s, c, ok);
    case Created(_) => BootMoveOk(s, c, ok);
    case Booting(_) => BootMoveOk(s, c, ok);
    case Booted(_, _) => BootMoveOk(s, c, ok);
    case StartEntered => StartMoveOk(s, c, ok);
    case ClosingOld(_) => StartMoveOk(s, c, ok);
    case OldClosed => StartMoveOk(s, c, ok);
    case CreateFailed => StartMoveOk(s, c, ok);
    case Discarding(_) => StartMoveOk(s, c, ok);
    case CloseEntered => CloseMoveOk(s, c, ok);
    case ClosingCurrent(_) => CloseMoveOk(s, c, ok);
    case CurrentClosed => CloseMoveOk(s, c, ok);
    case Leaving => CloseMoveOk(s, c, ok);
  }

  lemma StepOk(s: Sys, step: Step)
    requires Inv(s) && Enabled(s, step)
    ensures Inv(Apply(s, step))
  {
    match step
    case Advance(c, ok) => MoveOk(s, c, ok);
    case Call(_, _) =>
    case ReportError =>
    case Shut =>
  }

  lemma {:induction false} RunOk(s: Sys, steps: seq<Step>, t: Sys)
    requires Inv(s) && Runs(s, steps, t)
    ensures Inv(t)
    decreases |steps|
  {
    if steps != [] {
      StepOk(s, steps[0]);
      RunOk(Apply(s, steps[0]), steps[1..], t);
    }
  }

  // ---------------------------------------------------------------- what every run keeps

  /** At most one instance is alive, whoever calls what. */
  lemma AtMostOneInstance(steps: seq<Step>, t: Sys)
    requires Runs(Fresh, steps, t)
    ensures |t.live| <= 1
  {
    RunOk(Fresh, steps, t);
  }

  /** STARTED means that the attached instance is alive and was never interrupted. */
  lemma StartedIsLive(steps: seq<Step>, t: Sys)
    requires Runs(Fresh, steps, t) && t.f.status == Started
    ensures t.f.instance.Some? && t.live == {t.f.instance.value} && t.f.instance.value !in t.cancelled
  {
    RunOk(Fresh, steps, t);
  }

  /** An interrupted instance is never announced as started, and is closed before the lifecycle lock is free again. */
  lemma InterruptedIsClosed(steps: seq<Step>, t: Sys)
    requires Runs(Fresh, steps, t)
    ensures t.published !! t.cancelled
    ensures t.lock.None? ==> t.live == Only(t.f.instance) && t.live !! t.cancelled
  {
    RunOk(Fresh, steps, t);
    RunFree(Fresh, steps, t);
  }

  /** While the lock is free, an attached instance has been announced. */
  ghost predicate FreeOk(s: Sys) {
    && (s.lock.None? && s.f.instance.Some? ==> s.f.instance.value in s.published)
    && (s.lock.Some? && s.lock.value in s.pcs ==>
          var pc := s.pcs[s.lock.value];
          (pc.StartEntered? || pc.CloseEntered? || pc.Leaving?) && s.f.instance.Some? ==> s.f.instance.value in s.published)
  }

  lemma FreeStep(s: Sys, step: Step)
    requires Inv(s) && FreeOk(s) && Enabled(s, step)
    ensures FreeOk(Apply(s, step))
  {
  }

  lemma {:induction false} RunFree(s: Sys, steps: seq<Step>, t: Sys)
    requires Inv(s) && FreeOk(s) && Runs(s, steps, t)
    ensures FreeOk(t)
    decreases |steps|
  {
    if steps != [] {
      StepOk(s, steps[0]);
      FreeStep(s, steps[0]);
      RunFree(Apply(s, steps[0]), steps[1..], t);
    }
  }

  /** As long as a caller has not returned, some caller can move: the two locks cannot deadlock. */
  lemma NoDeadlock(steps: seq<Step>, t: Sys, c: nat)
    requires Runs(Fresh, steps, t) && c in t.pcs && !t.pcs[c].Gone?
    ensures exists d :: Enabled(t, Advance(d, true))
  {
    RunOk(Fresh, steps, t);
    if t.lock.Some? {
      assert Enabled(t, Advance(t.lock.value, true));
    } else {
      assert Enabled(t, Advance(c, true));
    }
  }

  /** How far a caller still has to go. */
  function Distance(pc: Pc): nat {
    match pc
    case StartCalled => 12
    case StartQueued => 11
    case StartEntered => 10
    case ClosingOld(_) => 9
    case OldClosed => 8
    case Creating => 7
    case CreateFailed => 3
    case Created(_) => 6
    case Booting(_) => 5
    case Booted(_, _) => 4
    case Discarding(_) => 2
    case CloseCalled => 6
    case CloseQueued => 5
    case CloseEntered => 4
    case ClosingCurrent(_) => 3
    case CurrentClosed => 2
    case Leaving => 1
    case Gone => 0
  }

  /** Every move brings the caller nearer to its return, and no move sets another caller back. */
  lemma MoveAdvances(s: Sys, c: nat, ok: bool)
    requires Enabled(s, Advance(c, ok))
    ensures Distance(Move(s, c, ok).pcs[c]) < Distance(s.pcs[c])
    ensures forall d :: d in s.pcs && d != c ==> Move(s, c, ok).pcs[d] == s.pcs[d]
  {
  }
}
