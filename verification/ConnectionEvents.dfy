/** The incremental stream of connection events, and the connection table a client rebuilds from it. */
module ConnectionEvents {
  type Id = int

  /** Bytes up and down. */
  datatype Totals = Totals(up: int, down: int) {
    function Plus(other: Totals): Totals { Totals(up + other.up, down + other.down) }
    function Minus(other: Totals): Totals { Totals(up - other.up, down - other.down) }
  }

  datatype Snapshot = Snapshot(totals: Totals, hadTraffic: bool)

  /**
   A tracked connection. The counters are read twice, once for the snapshot (`read`) and once for the description
   sent to the client (`sent`).
   */
  datatype Connection = Connection(id: Id, read: Totals, sent: Totals)

  /** What a client receives. A connection may be announced when it is already closed. */
  datatype Event =
    | Announced(id: Id, totals: Totals, closed: bool)
    | Updated(id: Id, delta: Totals)
    | Ended(id: Id)

  const ZERO := Totals(0, 0)

  // The client's side.

  /** The open connections of a client, with their running totals, after one more event. */
  function Replay(view: map<Id, Totals>, event: Event): map<Id, Totals> {
    match event
    case Announced(id, totals, closed) => if closed then view - {id} else view[id := totals]
    case Updated(id, delta) => if id in view then view[id := view[id].Plus(delta)] else view
    case Ended(id) => view - {id}
  }

  function ReplayAll(view: map<Id, Totals>, events: seq<Event>): map<Id, Totals> {
    if events == [] then view else Replay(ReplayAll(view, events[..|events| - 1]), events[|events| - 1])
  }

  lemma ReplayOne(view: map<Id, Totals>, events: seq<Event>, event: Event)
    ensures ReplayAll(view, events + [event]) == Replay(ReplayAll(view, events), event)
  {
    assert (events + [event])[..|events|] == events;
  }

  lemma {:induction false} ReplayConcat(view: map<Id, Totals>, first: seq<Event>, second: seq<Event>)
    ensures ReplayAll(view, first + second) == ReplayAll(ReplayAll(view, first), second)
    decreases |second|
  {
    if second == [] {
      assert first + second == first;
    } else {
      var n := |second| - 1;
      assert first + second == (first + second[..n]) + [second[n]];
      ReplayOne(view, first + second[..n], second[n]);
      ReplayConcat(view, first, second[..n]);
    }
  }

  // The reference: the counters as last read, from the inputs alone.

  datatype Input =
    | Opened(connection: Connection)
    | Closed(id: Id)
    | Other
    | Tick(active: seq<Connection>)

  function Ids(connections: seq<Connection>): set<Id> {
    set c <- connections :: c.id
  }

  predicate Distinct(connections: seq<Connection>) {
    forall i, j :: 0 <= i < j < |connections| ==> connections[i].id != connections[j].id
  }

  predicate Sound(input: Input) {
    input.Tick? ==> Distinct(input.active)
  }

  function Readings(connections: seq<Connection>): map<Id, Totals> {
    if connections == [] then map[]
    else
      var last := connections[|connections| - 1];
      Readings(connections[..|connections| - 1])[last.id := last.read]
  }

  function Read(readings: map<Id, Totals>, input: Input): map<Id, Totals> {
    match input
    case Opened(c) => if c.id in readings then readings else readings[c.id := c.read]
    case Closed(id) => readings - {id}
    case Other => readings
    case Tick(active) => Readings(active)
  }

  function ReadAll(readings: map<Id, Totals>, inputs: seq<Input>): map<Id, Totals> {
    if inputs == [] then readings else Read(ReadAll(readings, inputs[..|inputs| - 1]), inputs[|inputs| - 1])
  }

  ghost predicate SteadyRun(readings: map<Id, Totals>, inputs: seq<Input>) {
    inputs == [] ||
    (SteadyRun(readings, inputs[..|inputs| - 1]) && SteadyInput(ReadAll(readings, inputs[..|inputs| - 1]), inputs[|inputs| - 1]))
  }

  predicate Less(now: Totals, before: Totals) {
    now.up < before.up || now.down < before.down
  }

  /** The two readings of a new connection agree, and the counters of a known one have not gone down. */
  predicate Steady(readings: map<Id, Totals>, c: Connection) {
    if c.id in readings then !Less(c.read, readings[c.id]) else c.sent == c.read
  }

  predicate SteadyInput(readings: map<Id, Totals>, input: Input) {
    match input
    case Opened(c) => c.id in readings || c.sent == c.read
    case Tick(active) => forall c <- active :: Steady(readings, c)
    case _ => true
  }

  lemma {:induction false} ReadingsKeys(connections: seq<Connection>)
    ensures Readings(connections).Keys == Ids(connections)
  {
    if connections != [] {
      var n := |connections| - 1;
      ReadingsKeys(connections[..n]);
      assert connections == connections[..n] + [connections[n]];
    }
  }

  /** Of the connections announced as closed while their snapshot stayed, those for which that is still so. */
  function Lost(lost: set<Id>, input: Input): set<Id> {
    match input
    case Closed(id) => lost - {id}
    case Tick(active) => lost * Ids(active)
    case _ => lost
  }

  function LostAll(lost: set<Id>, inputs: seq<Input>): set<Id> {
    if inputs == [] then lost else Lost(LostAll(lost, inputs[..|inputs| - 1]), inputs[|inputs| - 1])
  }

  lemma {:induction false} LostShrinks(lost: set<Id>, inputs: seq<Input>)
    ensures LostAll(lost, inputs) <= lost
  {
    if inputs != [] {
      LostShrinks(lost, inputs[..|inputs| - 1]);
    }
  }

  function Announcements(connections: seq<Connection>, closed: bool): seq<Event> {
    seq(|connections|, i requires 0 <= i < |connections| => Announced(connections[i].id, connections[i].sent, closed))
  }

  /** The first message: what is open, then what is closed. */
  function InitialEvents(active: seq<Connection>, closed: seq<Connection>): seq<Event> {
    Announcements(active, false) + Announcements(closed, true)
  }

  /** Going idle: there was traffic before, and since then none or a counter that went down. */
  predicate WentIdle(snapshots: map<Id, Snapshot>, c: Connection) {
    && c.id in snapshots
    && snapshots[c.id].hadTraffic
    && (c.read == snapshots[c.id].totals || Less(c.read, snapshots[c.id].totals))
  }

  /** Some bytes have passed and no counter went down. */
  predicate Moved(snapshots: map<Id, Snapshot>, c: Connection) {
    c.id in snapshots && c.read != snapshots[c.id].totals && !Less(c.read, snapshots[c.id].totals)
  }

  function Next(snapshots: map<Id, Snapshot>, c: Connection): Snapshot {
    Snapshot(c.read, Moved(snapshots, c))
  }

  /** The delta to report. */
  function Change(snapshots: map<Id, Snapshot>, c: Connection): Totals {
    if Moved(snapshots, c) then c.read.Minus(snapshots[c.id].totals) else ZERO
  }

  /** The events an active connection calls for. */
  function Due(snapshots: map<Id, Snapshot>, c: Connection): seq<Event> {
    if c.id !in snapshots then [Announced(c.id, c.sent, false)]
    else if Moved(snapshots, c) || WentIdle(snapshots, c) then [Updated(c.id, Change(snapshots, c))]
    else []
  }

  /**
   How far the client's totals are from the snapshots: what the two readings of a new connection differ by, plus
   what counters lost by going down.
   */
  function NextDrift(snapshots: map<Id, Snapshot>, drift: map<Id, Totals>, c: Connection): map<Id, Totals> {
    if c.id !in snapshots then drift[c.id := c.sent.Minus(c.read)]
    else if c.id in drift && Less(c.read, snapshots[c.id].totals) then
      drift[c.id := drift[c.id].Plus(snapshots[c.id].totals.Minus(c.read))]
    else drift
  }

  /** Client totals are snapshot totals plus drift; the client misses exactly the lost connections. */
  ghost predicate Agrees(view: map<Id, Totals>, snapshots: map<Id, Snapshot>, drift: map<Id, Totals>, lost: set<Id>) {
    && lost <= snapshots.Keys && view.Keys == snapshots.Keys - lost
    && drift.Keys == view.Keys
    && forall id <- view :: view[id] == snapshots[id].totals.Plus(drift[id])
  }

  lemma RefreshAgrees(view: map<Id, Totals>, snapshots: map<Id, Snapshot>, drift: map<Id, Totals>, lost: set<Id>, c: Connection)
    requires Agrees(view, snapshots, drift, lost) && c.id in snapshots
    ensures
      Agrees(Replay(view, Updated(c.id, Change(snapshots, c))), snapshots[c.id := Next(snapshots, c)],
             NextDrift(snapshots, drift, c), lost)
  {
  }

  lemma ClosedAgrees(view: map<Id, Totals>, snapshots: map<Id, Snapshot>, drift: map<Id, Totals>, lost: set<Id>, event: Event)
    requires Agrees(view, snapshots, drift, lost) && event.Announced? && event.closed
    ensures Agrees(Replay(view, event), snapshots, drift - {event.id}, lost + snapshots.Keys * {event.id})
  {
  }

  lemma ClosedIds(closed: seq<Connection>, known: set<Id>, k: nat)
    requires k < |closed|
    ensures known * Ids(closed[..k + 1]) == known * Ids(closed[..k]) + known * {closed[k].id}
  {
    assert closed[..k + 1] == closed[..k] + [closed[k]];
  }

  lemma ZeroIsNeutral(view: map<Id, Totals>, id: Id)
    ensures Replay(view, Updated(id, ZERO)) == view
  {
  }

  lemma ReplaySingle(view: map<Id, Totals>, event: Event)
    ensures ReplayAll(view, [event]) == Replay(view, event)
  {
    ReplayOne(view, [], event);
    assert [] + [event] == [event];
  }

  ghost predicate NoDrift(drift: map<Id, Totals>) {
    forall id <- drift :: drift[id] == ZERO
  }

  function TotalsOf(snapshots: map<Id, Snapshot>): map<Id, Totals> {
    map id <- snapshots :: snapshots[id].totals
  }

  lemma SomeId(ids: set<Id>)
    ensures ids == {} || exists id :: id in ids
  {
    if forall id :: id !in ids {
      assert ids == {};
    }
  }

  lemma RemoveOneMore<T>(m: map<Id, T>, removed: set<Id>, id: Id)
    ensures m - removed - {id} == m - (removed + {id})
  {
  }

  // One tick, as a loop over the active connections.

  /** The first k active connections are refreshed, and nothing else changed. */
  ghost predicate Swept(before: map<Id, Snapshot>, after: map<Id, Snapshot>, active: seq<Connection>, k: nat)
    requires k <= |active|
  {
    && (forall id :: id in after <==> id in before || id in Ids(active[..k]))
    && (forall i :: 0 <= i < k ==> active[i].id in after && after[active[i].id] == Next(before, active[i]))
    && (forall id :: id in before && id !in Ids(active[..k]) ==> after[id] == before[id])
  }

  /** The events so far are those the first k active connections called for. */
  ghost predicate Says(before: map<Id, Snapshot>, events: seq<Event>, active: seq<Connection>, k: nat)
    requires k <= |active|
  {
    && (forall i, e :: 0 <= i < k && e in events && e.id == active[i].id ==> e in Due(before, active[i]))
    && (forall i, e :: 0 <= i < k && e in Due(before, active[i]) ==> e in events)
    && (forall e <- events :: e.id in Ids(active[..k]))
  }

  lemma IdsStep(active: seq<Connection>, k: nat)
    requires Distinct(active) && k < |active|
    ensures Ids(active[..k + 1]) == Ids(active[..k]) + {active[k].id}
    ensures active[k].id !in Ids(active[..k])
  {
    assert active[..k + 1] == active[..k] + [active[k]];
  }

  lemma SweptAt(before: map<Id, Snapshot>, after: map<Id, Snapshot>, active: seq<Connection>, k: nat)
    requires Distinct(active) && k < |active| && Swept(before, after, active, k)
    ensures active[k].id in after <==> active[k].id in before
    ensures active[k].id in after ==> after[active[k].id] == before[active[k].id]
  {
    IdsStep(active, k);
  }

  lemma SweptStep(before: map<Id, Snapshot>, after: map<Id, Snapshot>, active: seq<Connection>, k: nat)
    requires Distinct(active) && k < |active| && Swept(before, after, active, k)
    ensures Swept(before, after[active[k].id := Next(after, active[k])], active, k + 1)
  {
    IdsStep(active, k);
    SweptAt(before, after, active, k);
    assert Next(after, active[k]) == Next(before, active[k]);
  }

  lemma DriftStep(before: map<Id, Snapshot>, after: map<Id, Snapshot>, drift: map<Id, Totals>, active: seq<Connection>, k: nat)
    requires Distinct(active) && k < |active| && Swept(before, after, active, k)
    ensures NoDrift(drift) && SteadyInput(TotalsOf(before), Tick(active)) ==> NoDrift(NextDrift(after, drift, active[k]))
  {
    SweptAt(before, after, active, k);
    if SteadyInput(TotalsOf(before), Tick(active)) {
      assert active[k] in active;
      assert Steady(TotalsOf(before), active[k]);
    }
  }

  lemma SaysStep(before: map<Id, Snapshot>, events: seq<Event>, active: seq<Connection>, k: nat, more: seq<Event>)
    requires Distinct(active) && k < |active| && Says(before, events, active, k) && more == Due(before, active[k])
    ensures Says(before, events + more, active, k + 1)
  {
    IdsStep(active, k);
    forall i, e | 0 <= i <= k && e in events + more && e.id == active[i].id
      ensures e in Due(before, active[i])
    {
      if e in more {
        assert e.id == active[k].id;
      } else {
        assert e in events && e.id in Ids(active[..k]);
      }
    }
  }

  /** All of the loop's state after k active connections. */
  ghost predicate Refreshed(before: map<Id, Snapshot>, lag: map<Id, Totals>, after: map<Id, Snapshot>, drift: map<Id, Totals>,
                            events: seq<Event>, active: seq<Connection>, k: nat)
    requires k <= |active|
  {
    && Swept(before, after, active, k)
    && Says(before, events, active, k)
    && (NoDrift(lag) && SteadyInput(TotalsOf(before), Tick(active)) ==> NoDrift(drift))
  }

  lemma RefreshStep(before: map<Id, Snapshot>, lag: map<Id, Totals>, after: map<Id, Snapshot>, drift: map<Id, Totals>,
                    events: seq<Event>, active: seq<Connection>, k: nat, more: seq<Event>)
    requires Distinct(active) && k < |active| && Refreshed(before, lag, after, drift, events, active, k)
    requires more == Due(after, active[k])
    ensures Refreshed(before, lag, after[active[k].id := Next(after, active[k])], NextDrift(after, drift, active[k]),
                      events + more, active, k + 1)
  {
    SweptAt(before, after, active, k);
    SweptStep(before, after, active, k);
    DriftStep(before, after, drift, active, k);
    assert Due(after, active[k]) == Due(before, active[k]);
    SaysStep(before, events, active, k, more);
  }

  /** All events of a tick: what the active connections call for, and the end of every other one that was known. */
  ghost predicate TickEvents(before: map<Id, Snapshot>, events: seq<Event>, active: seq<Connection>) {
    && (forall c, e :: c in active && e in events && e.id == c.id ==> e in Due(before, c))
    && (forall c, e :: c in active && e in Due(before, c) ==> e in events)
    && (forall e :: e in events && e.id !in Ids(active) ==> e == Ended(e.id) && e.id in before)
    && (forall id :: id in before && id !in Ids(active) ==> Ended(id) in events)
  }

  /** The end of exactly the known connections that are not active. */
  ghost predicate EndsOf(events: seq<Event>, known: map<Id, Snapshot>, active: set<Id>) {
    forall e :: e in events <==> e == Ended(e.id) && e.id in known && e.id !in active
  }

  /** The snapshots after a tick: the active connections with their counters, and which of them moved. */
  ghost predicate AfterTick(before: map<Id, Snapshot>, after: map<Id, Snapshot>, active: seq<Connection>) {
    TotalsOf(after) == Readings(active) && forall c <- active :: c.id in after && after[c.id] == Next(before, c)
  }

  lemma SaysAll(before: map<Id, Snapshot>, events: seq<Event>, active: seq<Connection>, more: seq<Event>)
    requires Says(before, events, active, |active|)
    requires EndsOf(more, before, Ids(active))
    ensures TickEvents(before, events + more, active)
  {
    assert active[..|active|] == active;
    forall c, e | c in active && e in events + more && e.id == c.id
      ensures e in Due(before, c)
    {
      assert c.id in Ids(active);
      var i :| 0 <= i < |active| && active[i] == c;
    }
    forall c, e | c in active && e in Due(before, c)
      ensures e in events + more
    {
      var i :| 0 <= i < |active| && active[i] == c;
    }
    forall e | e in events + more && e.id !in Ids(active)
      ensures e == Ended(e.id) && e.id in before
    {
      assert e in events ==> e.id in Ids(active);
    }
    forall id | id in before && id !in Ids(active)
      ensures Ended(id) in events + more
    {
      assert Ended(id) in more;
    }
  }

  lemma {:induction false} ReadingsAt(active: seq<Connection>, i: nat)
    requires Distinct(active) && i < |active|
    ensures active[i].id in Readings(active) && Readings(active)[active[i].id] == active[i].read
  {
    var n := |active| - 1;
    if i < n {
      ReadingsAt(active[..n], i);
    }
  }

  lemma PruneSwept(before: map<Id, Snapshot>, swept: map<Id, Snapshot>, active: seq<Connection>)
    requires Distinct(active) && Swept(before, swept, active, |active|)
    ensures
      var after := swept - (swept.Keys - Ids(active));
      TotalsOf(after) == Readings(active) && (forall c <- active :: c.id in after && after[c.id] == Next(before, c))
  {
    var after := swept - (swept.Keys - Ids(active));
    assert active[..|active|] == active;
    ReadingsKeys(active);
    forall i | 0 <= i < |active|
      ensures active[i].id in after && after[active[i].id] == Next(before, active[i])
      ensures Readings(active)[active[i].id] == active[i].read
    {
      ReadingsAt(active, i);
    }
  }

  /** A tick, once the connections that are not active have been ended. */
  lemma TickDone(before: map<Id, Snapshot>, lag: map<Id, Totals>, swept: map<Id, Snapshot>, drift: map<Id, Totals>,
                 events: seq<Event>, active: seq<Connection>, more: seq<Event>)
    requires Distinct(active) && Refreshed(before, lag, swept, drift, events, active, |active|)
    requires EndsOf(more, swept, Ids(active))
    ensures AfterTick(before, swept - (swept.Keys - Ids(active)), active)
    ensures TickEvents(before, events + more, active)
    ensures NoDrift(lag) && SteadyInput(TotalsOf(before), Tick(active)) ==> NoDrift(drift - (swept.Keys - Ids(active)))
  {
    PruneSwept(before, swept, active);
    assert active[..|active|] == active;
    assert EndsOf(more, before, Ids(active));
    SaysAll(before, events, active, more);
  }

  lemma AnnounceStep(snapshots: map<Id, Snapshot>, drift: map<Id, Totals>, active: seq<Connection>, k: nat)
    requires Distinct(active) && k < |active| && TotalsOf(snapshots) == Readings(active[..k])
    ensures active[k].id !in snapshots
    ensures TotalsOf(snapshots[active[k].id := Snapshot(active[k].read, false)]) == Readings(active[..k + 1])
    ensures NoDrift(drift) && SteadyInput(map[], Tick(active)) ==> NoDrift(drift[active[k].id := active[k].sent.Minus(active[k].read)])
  {
    var c := active[k];
    IdsStep(active, k);
    ReadingsKeys(active[..k]);
    assert c.id !in TotalsOf(snapshots);
    assert active[..k + 1][..k] == active[..k];
    assert SteadyInput(map[], Tick(active)) ==> Steady(map[], c);
    assert TotalsOf(snapshots[c.id := Snapshot(c.read, false)]) == TotalsOf(snapshots)[c.id := c.read];
  }

  // What a client is told, from the readings alone.

  /** No counter went down, and one went up. */
  predicate Rose(before: Totals, now: Totals) {
    before.up <= now.up && before.down <= now.down && (before.up < now.up || before.down < now.down)
  }

  /** At the last tick that read the connection, its counters rose from the reading before; it has not ended since. */
  function RoseLast(first: map<Id, Totals>, inputs: seq<Input>, id: Id): bool {
    if inputs == [] then false
    else
      var before := inputs[..|inputs| - 1];
      match inputs[|inputs| - 1]
      case Closed(ended) => ended != id && RoseLast(first, before, id)
      case Tick(active) =>
        id in ReadAll(first, before) && id in Readings(active) && Rose(ReadAll(first, before)[id], Readings(active)[id])
      case _ => RoseLast(first, before, id)
  }

  /**
   A connection that a tick lists: announced when it was not known, told the difference when it rose, told zero exactly
   when it rose at the tick before and does not now. It is told nothing else.
   */
  ghost predicate TickSays(readings: map<Id, Totals>, rose: bool, c: Connection, events: seq<Event>) {
    && (Announced(c.id, c.sent, false) in events <==> c.id !in readings)
    && (Updated(c.id, Totals(0, 0)) in events <==> c.id in readings && rose && !Rose(readings[c.id], c.read))
    && (forall e :: e in events && e.id == c.id ==>
          if c.id !in readings then e == Announced(c.id, c.sent, false)
          else if Rose(readings[c.id], c.read) then e == Updated(c.id, Totals(c.read.up - readings[c.id].up, c.read.down - readings[c.id].down))
          else e == Updated(c.id, Totals(0, 0)))
    && (c.id in readings && Rose(readings[c.id], c.read) ==> exists e :: e in events && e.id == c.id)
  }

  /** What an input makes the stream say, after the inputs before it. */
  ghost predicate Said(first: map<Id, Totals>, before: seq<Input>, input: Input, events: seq<Event>) {
    var readings := ReadAll(first, before);
    match input
    case Opened(c) => events == if c.id in readings then [] else [Announced(c.id, c.sent, false)]
    case Closed(id) => events == [Ended(id)]
    case Other => events == []
    case Tick(active) =>
      && (forall c <- active :: TickSays(readings, RoseLast(first, before, c.id), c, events))
      && (forall e :: e in events && e.id !in Ids(active) ==> e == Ended(e.id) && e.id in readings)
      && (forall id :: id in readings && id !in Ids(active) ==> Ended(id) in events)
  }

  /** The flags of the snapshots say which connections rose last. */
  ghost predicate FlagsTell(snapshots: map<Id, Snapshot>, first: map<Id, Totals>, inputs: seq<Input>) {
    forall id :: RoseLast(first, inputs, id) <==> id in snapshots && snapshots[id].hadTraffic
  }

  lemma {:induction false} RoseIsKnown(first: map<Id, Totals>, inputs: seq<Input>, id: Id)
    requires RoseLast(first, inputs, id)
    ensures id in ReadAll(first, inputs)
  {
    if !inputs[|inputs| - 1].Tick? {
      RoseIsKnown(first, inputs[..|inputs| - 1], id);
    }
  }

  /** Whatever happened to an earlier one of that name, a connection is not told zero at the first tick after it is announced. */
  lemma FirstTickIsNotZero(first: map<Id, Totals>, inputs: seq<Input>, c: Connection, tick: Connection, events: seq<Event>)
    requires c.id !in ReadAll(first, inputs) && tick.id == c.id
    requires TickSays(ReadAll(first, inputs + [Opened(c)]), RoseLast(first, inputs + [Opened(c)], c.id), tick, events)
    ensures Updated(c.id, ZERO) !in events
  {
    assert (inputs + [Opened(c)])[..|inputs|] == inputs;
    if RoseLast(first, inputs, c.id) {
      RoseIsKnown(first, inputs, c.id);
    }
  }

  lemma DueSays(snapshots: map<Id, Snapshot>, c: Connection, events: seq<Event>)
    requires forall e :: e in events && e.id == c.id ==> e in Due(snapshots, c)
    requires forall e :: e in Due(snapshots, c) ==> e in events
    ensures TickSays(TotalsOf(snapshots), c.id in snapshots && snapshots[c.id].hadTraffic, c, events)
  {
    if c.id !in snapshots {
      assert Announced(c.id, c.sent, false) in Due(snapshots, c);
    } else if Moved(snapshots, c) || WentIdle(snapshots, c) {
      assert Updated(c.id, Change(snapshots, c)) in Due(snapshots, c);
    }
  }

  lemma TickIsSaid(snapshots: map<Id, Snapshot>, first: map<Id, Totals>, before: seq<Input>, active: seq<Connection>, events: seq<Event>)
    requires TotalsOf(snapshots) == ReadAll(first, before) && FlagsTell(snapshots, first, before)
    requires TickEvents(snapshots, events, active)
    ensures Said(first, before, Tick(active), events)
  {
    forall c <- active
      ensures TickSays(TotalsOf(snapshots), RoseLast(first, before, c.id), c, events)
    {
      DueSays(snapshots, c, events);
    }
    assert snapshots.Keys == TotalsOf(snapshots).Keys;
  }

  lemma FlagsAfterTick(snapshots: map<Id, Snapshot>, first: map<Id, Totals>, before: seq<Input>, active: seq<Connection>, after: map<Id, Snapshot>)
    requires TotalsOf(snapshots) == ReadAll(first, before) && Distinct(active)
    requires AfterTick(snapshots, after, active)
    ensures FlagsTell(after, first, before + [Tick(active)])
  {
    var inputs := before + [Tick(active)];
    assert inputs[..|inputs| - 1] == before;
    assert snapshots.Keys == TotalsOf(snapshots).Keys && after.Keys == TotalsOf(after).Keys;
    ReadingsKeys(active);
    forall id
      ensures RoseLast(first, inputs, id) <==> id in after && after[id].hadTraffic
    {
      if id in after {
        var i :| 0 <= i < |active| && active[i].id == id;
        ReadingsAt(active, i);
        assert after[id] == Next(snapshots, active[i]);
      }
    }
  }

  lemma FlagsAfterEvent(snapshots: map<Id, Snapshot>, first: map<Id, Totals>, before: seq<Input>, input: Input, after: map<Id, Snapshot>)
    requires FlagsTell(snapshots, first, before) && !input.Tick?
    requires input.Closed? ==> after.Keys == snapshots.Keys - {input.id}
    requires !input.Closed? ==> snapshots.Keys <= after.Keys
    requires forall id :: id in snapshots && id in after ==> after[id] == snapshots[id]
    requires forall id :: id in after && id !in snapshots ==> !after[id].hadTraffic
    ensures FlagsTell(after, first, before + [input])
  {
    var inputs := before + [input];
    assert inputs[..|inputs| - 1] == before;
  }

  class Stream {
    var snapshots: map<Id, Snapshot>

    /** The client's table, its distance from the snapshots, and the known connections it was told are closed. */
    ghost var view: map<Id, Totals>
    ghost var drift: map<Id, Totals>
    ghost var lost: set<Id>

    ghost predicate Valid()
      reads this
    {
      Agrees(view, snapshots, drift, lost)
    }

    constructor ()
      ensures Valid() && snapshots == map[] && view == map[] && drift == map[] && lost == {}
    {
      snapshots, view, drift, lost := map[], map[], map[], {};
    }

    /** A connection that is not known yet. */
    method Announce(c: Connection) returns (event: Event)
      requires Valid() && c.id !in snapshots
      modifies this`snapshots, this`view, this`drift
      ensures Valid()
      ensures snapshots == old(snapshots)[c.id := Snapshot(c.read, false)]
      ensures drift == old(drift)[c.id := c.sent.Minus(c.read)]
      ensures event == Announced(c.id, c.sent, false) && view == Replay(old(view), event)
    {
      snapshots := snapshots[c.id := Snapshot(c.read, false)];
      event := Announced(c.id, c.sent, false);
      view, drift := Replay(view, event), drift[c.id := c.sent.Minus(c.read)];
    }

    method End(id: Id) returns (event: Event)
      requires Valid()
      modifies this`snapshots, this`view, this`drift, this`lost
      ensures Valid() && lost == old(lost) - {id}
      ensures snapshots == old(snapshots) - {id} && drift == old(drift) - {id}
      ensures event == Ended(id) && view == Replay(old(view), event)
    {
      snapshots := snapshots - {id};
      event := Ended(id);
      view, drift, lost := Replay(view, event), drift - {id}, lost - {id};
    }

    method ApplyEvent(input: Input) returns (events: seq<Event>)
      requires Valid() && !input.Tick?
      modifies this`snapshots, this`view, this`drift, this`lost
      ensures Valid() && view == ReplayAll(old(view), events) && lost == Lost(old(lost), input)
      ensures TotalsOf(snapshots) == Read(TotalsOf(old(snapshots)), input)
      ensures forall id :: id in old(snapshots) && id in snapshots ==> snapshots[id] == old(snapshots[id])
      ensures forall id :: id in snapshots && id !in old(snapshots) ==> !snapshots[id].hadTraffic
      ensures NoDrift(old(drift)) && SteadyInput(TotalsOf(old(snapshots)), input) ==> NoDrift(drift)
      ensures events ==
        match input
        case Opened(c) => if c.id in old(snapshots) then [] else [Announced(c.id, c.sent, false)]
        case Closed(id) => [Ended(id)]
        case Other => []
    {
      match input
      case Opened(c) =>
        if c.id in snapshots {
          return [];
        }
        var event := Announce(c);
        ReplaySingle(old(view), event);
        return [event];
      case Closed(id) =>
        var event := End(id);
        ReplaySingle(old(view), event);
        return [event];
      case Other =>
        return [];
    }

    /** The update of one active connection. */
    method Refresh(c: Connection) returns (events: seq<Event>)
      requires Valid()
      modifies this`snapshots, this`view, this`drift
      ensures Valid() && view == ReplayAll(old(view), events)
      ensures snapshots == old(snapshots)[c.id := Next(old(snapshots), c)]
      ensures drift == NextDrift(old(snapshots), old(drift), c)
      ensures events == Due(old(snapshots), c)
    {
      if c.id !in snapshots {
        var event := Announce(c);
        ReplaySingle(old(view), event);
        return [event];
      }
      events := Compare(c);
      ghost var event := Updated(c.id, Change(old(snapshots), c));
      if events == [] {
        ZeroIsNeutral(view, c.id);
      }
      ReplaySingle(view, event);
      RefreshAgrees(view, old(snapshots), drift, lost, c);
      view, drift := ReplayAll(view, events), NextDrift(old(snapshots), drift, c);
    }

    /** The snapshot of a known connection, and the update it calls for. */
    method Compare(c: Connection) returns (events: seq<Event>)
      requires c.id in snapshots
      modifies this`snapshots
      ensures snapshots == old(snapshots)[c.id := Next(old(snapshots), c)]
      ensures events == if Moved(old(snapshots), c) || WentIdle(old(snapshots), c) then [Updated(c.id, Change(old(snapshots), c))] else []
    {
      var snapshot := snapshots[c.id];
      var delta := c.read.Minus(snapshot.totals);
      if delta.up < 0 || delta.down < 0 {
        snapshots := snapshots[c.id := Snapshot(c.read, false)];
        return if snapshot.hadTraffic then [Updated(c.id, ZERO)] else [];
      }
      if delta.up > 0 || delta.down > 0 {
        snapshots := snapshots[c.id := Snapshot(c.read, true)];
        return [Updated(c.id, delta)];
      }
      if snapshot.hadTraffic {
        snapshots := snapshots[c.id := Snapshot(c.read, false)];
        return [Updated(c.id, ZERO)];
      }
      return [];
    }

    /** Closes what is not active. */
    method Prune(active: set<Id>) returns (events: seq<Event>)
      requires Valid()
      modifies this`snapshots, this`view, this`drift, this`lost
      ensures Valid() && view == ReplayAll(old(view), events) && lost == old(lost) * active
      ensures snapshots == old(snapshots) - (old(snapshots).Keys - active)
      ensures drift == old(drift) - (old(snapshots).Keys - active)
      ensures EndsOf(events, old(snapshots), active)
    {
      events := [];
      var todo := snapshots.Keys - active;
      ghost var removed: set<Id> := {};
      while todo != {}
        invariant Valid() && view == ReplayAll(old(view), events)
        invariant todo + removed == old(snapshots).Keys - active && todo !! removed
        invariant snapshots == old(snapshots) - removed && drift == old(drift) - removed && lost == old(lost) - removed
        invariant forall e :: e in events <==> e == Ended(e.id) && e.id in removed
      {
        SomeId(todo);
        var id :| id in todo;
        var event := End(id);
        ReplayOne(old(view), events, event);
        RemoveOneMore(old(snapshots), removed, id);
        RemoveOneMore(old(drift), removed, id);
        events := events + [event];
        todo, removed := todo - {id}, removed + {id};
      }
    }

    /** The updates of the active connections. */
    method RefreshAll(active: seq<Connection>) returns (events: seq<Event>)
      requires Valid() && Distinct(active)
      modifies this`snapshots, this`view, this`drift
      ensures Valid() && view == ReplayAll(old(view), events)
      ensures Refreshed(old(snapshots), old(drift), snapshots, drift, events, active, |active|)
    {
      events := [];
      for k := 0 to |active|
        invariant Valid() && view == ReplayAll(old(view), events)
        invariant Refreshed(old(snapshots), old(drift), snapshots, drift, events, active, k)
      {
        ghost var before, lag := snapshots, drift;
        var more := Refresh(active[k]);
        RefreshStep(old(snapshots), old(drift), before, lag, events, active, k, more);
        ReplayConcat(old(view), events, more);
        events := events + more;
      }
    }

    /** The periodic update. */
    method BuildTrafficUpdates(active: seq<Connection>) returns (events: seq<Event>)
      requires Valid() && Distinct(active)
      modifies this`snapshots, this`view, this`drift, this`lost
      ensures Valid() && view == ReplayAll(old(view), events) && lost == Lost(old(lost), Tick(active))
      ensures AfterTick(old(snapshots), snapshots, active)
      ensures TickEvents(old(snapshots), events, active)
      ensures NoDrift(old(drift)) && SteadyInput(TotalsOf(old(snapshots)), Tick(active)) ==> NoDrift(drift)
    {
      events := RefreshAll(active);
      ghost var swept, lag := snapshots, drift;
      var more := Prune(Ids(active));
      TickDone(old(snapshots), old(drift), swept, lag, events, active, more);
      ReplayConcat(old(view), events, more);
      events := events + more;
    }

    method AnnounceActive(active: seq<Connection>) returns (events: seq<Event>)
      requires Valid() && snapshots == map[] && Distinct(active)
      modifies this`snapshots, this`view, this`drift
      ensures Valid() && view == ReplayAll(old(view), events) && events == Announcements(active, false)
      ensures TotalsOf(snapshots) == Readings(active) && forall id <- snapshots :: !snapshots[id].hadTraffic
      ensures SteadyInput(map[], Tick(active)) ==> NoDrift(drift)
    {
      events := [];
      for k := 0 to |active|
        invariant Valid() && view == ReplayAll(old(view), events) && events == Announcements(active, false)[..k]
        invariant forall id <- snapshots :: !snapshots[id].hadTraffic
        invariant TotalsOf(snapshots) == Readings(active[..k])
        invariant SteadyInput(map[], Tick(active)) ==> NoDrift(drift)
      {
        AnnounceStep(snapshots, drift, active, k);
        var event := Announce(active[k]);
        ReplayOne(old(view), events, event);
        events := events + [event];
      }
      assert active[..|active|] == active;
    }

    /** A connection that is closed already. */
    method AnnounceEnded(c: Connection) returns (event: Event)
      requires Valid()
      modifies this`view, this`drift, this`lost
      ensures Valid() && event == Announced(c.id, c.sent, true) && view == Replay(old(view), event)
      ensures lost == old(lost) + snapshots.Keys * {c.id} && drift == old(drift) - {c.id}
    {
      event := Announced(c.id, c.sent, true);
      ClosedAgrees(view, snapshots, drift, lost, event);
      view, drift, lost := Replay(view, event), drift - {c.id}, lost + snapshots.Keys * {c.id};
    }

    method AnnounceClosed(closed: seq<Connection>) returns (events: seq<Event>)
      requires Valid()
      modifies this`view, this`drift, this`lost
      ensures Valid() && view == ReplayAll(old(view), events) && events == Announcements(closed, true)
      ensures lost == old(lost) + snapshots.Keys * Ids(closed)
      ensures NoDrift(old(drift)) ==> NoDrift(drift)
    {
      events := [];
      for k := 0 to |closed|
        invariant Valid() && view == ReplayAll(old(view), events) && events == Announcements(closed, true)[..k]
        invariant lost == old(lost) + snapshots.Keys * Ids(closed[..k])
        invariant NoDrift(old(drift)) ==> NoDrift(drift)
      {
        ClosedIds(closed, snapshots.Keys, k);
        var event := AnnounceEnded(closed[k]);
        ReplayOne(old(view), events, event);
        events := events + [event];
      }
      assert closed[..|closed|] == closed;
    }

    /** Announces the open connections, then the ones already closed. */
    method BuildInitial(active: seq<Connection>, closed: seq<Connection>) returns (events: seq<Event>)
      requires Valid() && snapshots == map[] && Distinct(active)
      modifies this
      ensures Valid() && view == ReplayAll(old(view), events) && events == InitialEvents(active, closed)
      ensures TotalsOf(snapshots) == Readings(active) && forall id <- snapshots :: !snapshots[id].hadTraffic
      ensures lost == Ids(active) * Ids(closed)
      ensures SteadyInput(map[], Tick(active)) ==> NoDrift(drift)
    {
      events := AnnounceActive(active);
      ReadingsKeys(active);
      assert snapshots.Keys == TotalsOf(snapshots).Keys;
      var more := AnnounceClosed(closed);
      ReplayConcat(old(view), events, more);
      events := events + more;
    }
  }

  /**
   What a client knows after some inputs: it has the connections last listed as open but the lost ones, and with
   steady counters its totals are the counters last read.
   */
  ghost predicate InStep(active: seq<Connection>, closed: seq<Connection>, inputs: seq<Input>, sent: seq<Event>) {
    var view, readings := ReplayAll(map[], sent), ReadAll(Readings(active), inputs);
    var lost := LostAll(Ids(active) * Ids(closed), inputs);
    && lost <= readings.Keys && view.Keys == readings.Keys - lost
    && (SteadyInput(map[], Tick(active)) && SteadyRun(Readings(active), inputs) ==> forall id <- view :: view[id] == readings[id])
  }

  lemma StreamInStep(stream: Stream, active: seq<Connection>, closed: seq<Connection>, inputs: seq<Input>, sent: seq<Event>)
    requires stream.Valid() && stream.lost == LostAll(Ids(active) * Ids(closed), inputs)
    requires stream.view == ReplayAll(map[], sent) && TotalsOf(stream.snapshots) == ReadAll(Readings(active), inputs)
    requires SteadyInput(map[], Tick(active)) && SteadyRun(Readings(active), inputs) ==> NoDrift(stream.drift)
    ensures InStep(active, closed, inputs, sent)
  {
    assert stream.snapshots.Keys == TotalsOf(stream.snapshots).Keys;
  }

  /** One pass of the loop of a subscription. */
  method ServeOne(stream: Stream, input: Input, ghost first: map<Id, Totals>, ghost before: seq<Input>) returns (events: seq<Event>)
    requires stream.Valid() && Sound(input)
    requires TotalsOf(stream.snapshots) == ReadAll(first, before) && FlagsTell(stream.snapshots, first, before)
    modifies stream
    ensures stream.Valid() && stream.view == ReplayAll(old(stream.view), events) && stream.lost == Lost(old(stream.lost), input)
    ensures TotalsOf(stream.snapshots) == Read(ReadAll(first, before), input)
    ensures NoDrift(old(stream.drift)) && SteadyInput(ReadAll(first, before), input) ==> NoDrift(stream.drift)
    ensures FlagsTell(stream.snapshots, first, before + [input])
    ensures Said(first, before, input, events)
  {
    ghost var was := stream.snapshots;
    if input.Tick? {
      events := stream.BuildTrafficUpdates(input.active);
      TickIsSaid(was, first, before, input.active, events);
      FlagsAfterTick(was, first, before, input.active, stream.snapshots);
    } else {
      events := stream.ApplyEvent(input);
      SameKeys(was);
      SameKeys(stream.snapshots);
      FlagsAfterEvent(was, first, before, input, stream.snapshots);
    }
  }

  lemma SameKeys(snapshots: map<Id, Snapshot>)
    ensures snapshots.Keys == TotalsOf(snapshots).Keys
  {
  }

  /** By the events sent up to its mark, the client is in step with every part of the first k inputs. */
  ghost predicate Marked(active: seq<Connection>, closed: seq<Connection>, inputs: seq<Input>, sent: seq<Event>, marks: seq<nat>, k: nat)
    requires k <= |inputs|
  {
    && |marks| == k + 1 && marks[k] == |sent|
    && forall j :: 0 <= j <= k ==> marks[j] <= |sent| && InStep(active, closed, inputs[..j], sent[..marks[j]])
  }

  /** The events of input j, between its marks. */
  ghost predicate SaidAt(first: map<Id, Totals>, inputs: seq<Input>, sent: seq<Event>, marks: seq<nat>, j: nat)
    requires j < |inputs| && |marks| > j + 1
  {
    marks[j] <= marks[j + 1] <= |sent| && Said(first, inputs[..j], inputs[j], sent[marks[j]..marks[j + 1]])
  }

  lemma MarkMore(active: seq<Connection>, closed: seq<Connection>, inputs: seq<Input>, sent: seq<Event>, marks: seq<nat>, k: nat, events: seq<Event>)
    requires k < |inputs| && Marked(active, closed, inputs, sent, marks, k)
    requires InStep(active, closed, inputs[..k + 1], sent + events)
    ensures Marked(active, closed, inputs, sent + events, marks + [|sent + events|], k + 1)
  {
    var more := sent + events;
    forall j | 0 <= j <= k
      ensures marks[j] <= |more| && InStep(active, closed, inputs[..j], more[..marks[j]])
    {
      assert more[..marks[j]] == sent[..marks[j]];
    }
    assert more[..|more|] == more;
  }

  lemma SaidMore(first: map<Id, Totals>, inputs: seq<Input>, sent: seq<Event>, marks: seq<nat>, k: nat, events: seq<Event>, j: nat)
    requires j <= k < |inputs| && |marks| == k + 1 && marks[k] == |sent|
    requires if j < k then SaidAt(first, inputs, sent, marks, j) else Said(first, inputs[..k], inputs[k], events)
    ensures SaidAt(first, inputs, sent + events, marks + [|sent + events|], j)
  {
    var more := sent + events;
    if j < k {
      assert more[marks[j]..marks[j + 1]] == sent[marks[j]..marks[j + 1]];
    } else {
      assert more[|sent|..|more|] == events;
    }
  }

  lemma InputStep(active: seq<Connection>, lost: set<Id>, inputs: seq<Input>, k: nat)
    requires k < |inputs|
    ensures ReadAll(Readings(active), inputs[..k + 1]) == Read(ReadAll(Readings(active), inputs[..k]), inputs[k])
    ensures LostAll(lost, inputs[..k + 1]) == Lost(LostAll(lost, inputs[..k]), inputs[k])
    ensures SteadyRun(Readings(active), inputs[..k + 1]) ==>
      SteadyRun(Readings(active), inputs[..k]) && SteadyInput(ReadAll(Readings(active), inputs[..k]), inputs[k])
  {
    assert inputs[..k + 1][..k] == inputs[..k];
  }

  ghost predicate SaidUpTo(first: map<Id, Totals>, inputs: seq<Input>, sent: seq<Event>, marks: seq<nat>, k: nat)
    requires k <= |inputs| && |marks| > k
  {
    forall j :: 0 <= j < k ==> SaidAt(first, inputs, sent, marks, j)
  }

  lemma SaidOneMore(first: map<Id, Totals>, inputs: seq<Input>, sent: seq<Event>, marks: seq<nat>, k: nat, events: seq<Event>)
    requires k < |inputs| && |marks| == k + 1 && marks[k] == |sent| && SaidUpTo(first, inputs, sent, marks, k)
    requires Said(first, inputs[..k], inputs[k], events)
    ensures SaidUpTo(first, inputs, sent + events, marks + [|sent + events|], k + 1)
  {
    forall j | 0 <= j <= k
      ensures SaidAt(first, inputs, sent + events, marks + [|sent + events|], j)
    {
      SaidMore(first, inputs, sent, marks, k, events, j);
    }
  }

  /** The state of the stream after the first k inputs. */
  ghost predicate Serving(stream: Stream, active: seq<Connection>, closed: seq<Connection>, inputs: seq<Input>, sent: seq<Event>)
    reads stream
  {
    && stream.Valid() && stream.view == ReplayAll(map[], sent)
    && stream.lost == LostAll(Ids(active) * Ids(closed), inputs)
    && TotalsOf(stream.snapshots) == ReadAll(Readings(active), inputs)
    && (SteadyInput(map[], Tick(active)) && SteadyRun(Readings(active), inputs) ==> NoDrift(stream.drift))
    && FlagsTell(stream.snapshots, Readings(active), inputs)
  }

  method ServeNext(stream: Stream, input: Input, ghost active: seq<Connection>, ghost closed: seq<Connection>, ghost inputs: seq<Input>, ghost k: nat, ghost sent: seq<Event>)
    returns (events: seq<Event>)
    requires k < |inputs| && inputs[k] == input && Sound(input) && Serving(stream, active, closed, inputs[..k], sent)
    modifies stream
    ensures Serving(stream, active, closed, inputs[..k + 1], sent + events)
    ensures Said(Readings(active), inputs[..k], input, events)
  {
    assert inputs[..k] + [input] == inputs[..k + 1];
    InputStep(active, Ids(active) * Ids(closed), inputs, k);
    events := ServeOne(stream, input, Readings(active), inputs[..k]);
    ReplayConcat(map[], sent, events);
  }

  /**
   A whole subscription. By `marks[k]` events the client has seen the first k inputs and is in step with them, and
   each input made the stream say exactly what it should.
   */
  method Serve(active: seq<Connection>, closed: seq<Connection>, inputs: seq<Input>) returns (sent: seq<Event>, ghost marks: seq<nat>)
    requires Distinct(active) && forall input <- inputs :: Sound(input)
    ensures InStep(active, closed, inputs, sent)
    ensures Marked(active, closed, inputs, sent, marks, |inputs|)
    ensures SaidUpTo(Readings(active), inputs, sent, marks, |inputs|)
    ensures
      (forall k :: 0 <= k <= |inputs| ==> ReplayAll(map[], sent[..marks[k]]).Keys == ReadAll(Readings(active), inputs[..k]).Keys)
      <==> Ids(active) !! Ids(closed)
  {
    var stream := new Stream();
    sent := stream.BuildInitial(active, closed);
    marks := [|sent|];
    assert sent[..|sent|] == sent && inputs[..0] == [];
    StreamInStep(stream, active, closed, inputs[..0], sent);
    for k := 0 to |inputs|
      invariant fresh(stream) && Serving(stream, active, closed, inputs[..k], sent)
      invariant Marked(active, closed, inputs, sent, marks, k)
      invariant SaidUpTo(Readings(active), inputs, sent, marks, k)
    {
      assert inputs[k] in inputs && Sound(inputs[k]);
      var events := ServeNext(stream, inputs[k], active, closed, inputs, k, sent);
      StreamInStep(stream, active, closed, inputs[..k + 1], sent + events);
      MarkMore(active, closed, inputs, sent, marks, k, events);
      SaidOneMore(Readings(active), inputs, sent, marks, k, events);
      sent := sent + events;
      marks := marks + [|sent|];
    }
    assert inputs[..|inputs|] == inputs && sent[..|sent|] == sent;
    AlwaysRightIff(active, closed, inputs, sent, marks);
  }

  /** The open set is right after every input exactly when no connection is in both first lists. */
  lemma AlwaysRightIff(active: seq<Connection>, closed: seq<Connection>, inputs: seq<Input>, sent: seq<Event>, marks: seq<nat>)
    requires Marked(active, closed, inputs, sent, marks, |inputs|)
    ensures
      (forall k :: 0 <= k <= |inputs| ==> ReplayAll(map[], sent[..marks[k]]).Keys == ReadAll(Readings(active), inputs[..k]).Keys)
      <==> Ids(active) !! Ids(closed)
  {
    var start := Ids(active) * Ids(closed);
    assert Ids(active) !! Ids(closed) <==> start == {} by {
      assert forall id :: id in Ids(active) && id in Ids(closed) ==> id in start;
    }
    if start == {} {
      forall k | 0 <= k <= |inputs|
        ensures ReplayAll(map[], sent[..marks[k]]).Keys == ReadAll(Readings(active), inputs[..k]).Keys
      {
        LostShrinks(start, inputs[..k]);
        assert InStep(active, closed, inputs[..k], sent[..marks[k]]);
      }
    } else {
      assert inputs[..0] == [];
      assert InStep(active, closed, inputs[..0], sent[..marks[0]]);
      SomeId(start);
      var id :| id in start;
      assert id !in ReplayAll(map[], sent[..marks[0]]) && id in ReadAll(Readings(active), inputs[..0]);
    }
  }

  /**
   A connection in both first lists: the client does not have it, though its snapshot is there. Its end or a tick
   without it puts that right; a tick that still lists it does not.
   */
  lemma InitialGap(id: Id, totals: Totals)
    ensures
      var c := Connection(id, totals, totals);
      && ReplayAll(map[], InitialEvents([c], [c])) == map[]
      && Readings([c]) == map[id := totals]
      && Lost({id}, Closed(id)) == {} && Lost({id}, Tick([])) == {} && Lost({id}, Tick([c])) == {id}
  {
    var c := Connection(id, totals, totals);
    var open, shut := Announced(id, totals, false), Announced(id, totals, true);
    assert Announcements([c], false) == [open] && Announcements([c], true) == [shut];
    assert InitialEvents([c], [c]) == [open] + [shut];
    ReplayOne(map[], [open], shut);
    ReplaySingle(map[], open);
    assert [c][..0] == [];
    assert c in [c];
  }
}
