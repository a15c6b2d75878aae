/** The answer cache over whole histories: where its answers come from, and how its two stores compare. */
module CacheHistory {
  import opened Wrappers
  import opened CacheKey
  import opened ResponseTtl
  import opened ClientCache

  /**
   What can happen. Entries of the cache in memory may be evicted at any time; the persistent store saves pending
   entries and cleans up at times of its own.
   */
  datatype Event =
    | Finished(f: Finish)
    | Loaded(key: Key, now: int)
    | Evicted(key: Key)
    | Flushed(entry: DiskKey)
    | Cleaned(at: int)
    | Cleared

  function MemoryStep(cfg: Config, memory: Memory, event: Event): Memory {
    match event
    case Finished(f) => PutMemory(memory, Stored(f))
    case Loaded(key, now) => Swept(cfg, memory, key, now)
    case Evicted(key) => memory - {key}
    case Flushed(_) => memory
    case Cleaned(_) => memory
    case Cleared => map[]
  }

  function MemoryAfter(cfg: Config, events: seq<Event>): Memory {
    if events == [] then map[] else MemoryStep(cfg, MemoryAfter(cfg, events[..|events| - 1]), events[|events| - 1])
  }

  function DiskStep(cfg: Config, disk: Disk, event: Event): Disk {
    match event
    case Finished(f) => PutDisk(disk, Stored(f))
    case Loaded(_, _) => disk
    case Evicted(_) => disk
    case Flushed(entry) => FlushDisk(disk, entry)
    case Cleaned(at) => CleanDisk(cfg, disk, at)
    case Cleared => NewDisk
  }

  function DiskAfter(cfg: Config, events: seq<Event>): Disk {
    if events == [] then NewDisk else DiskStep(cfg, DiskAfter(cfg, events[..|events| - 1]), events[|events| - 1])
  }

  predicate StoresUnder(event: Event, key: Key) {
    event.Finished? && Stored(event.f).Some? && Stored(event.f).value.0 == key
  }

  /** The last exchange that stored under a key since the cache was cleared. */
  function LastStored(events: seq<Event>, key: Key): (last: Option<Finish>)
    ensures last.Some? ==> Stored(last.value).Some? && Stored(last.value).value.0 == key
  {
    if events == [] || events[|events| - 1].Cleared? then None
    else if StoresUnder(events[|events| - 1], key) then Some(events[|events| - 1].f)
    else LastStored(events[..|events| - 1], key)
  }

  function LastKept(events: seq<Event>, key: Key): Option<Kept> {
    var last := LastStored(events, key);
    if last.None? then None else Some(Stored(last.value).value.1)
  }

  // ---------------------------------------------------------------- where answers come from

  /** Whatever is evicted, an entry in memory is what the last exchange stored under its key. */
  lemma {:induction false} MemoryIsLastStored(cfg: Config, events: seq<Event>, key: Key)
    requires key in MemoryAfter(cfg, events)
    ensures LastKept(events, key) == Some(MemoryAfter(cfg, events)[key])
  {
    var n := |events| - 1;
    if !StoresUnder(events[n], key) {
      MemoryIsLastStored(cfg, events[..n], key);
    }
  }

  /** A key the persistent store tells apart from others of its class. */
  predicate Fits(key: Key, qclass: int) {
    PlainKey(key) && key.question.qclass == qclass
  }

  predicate AllFit(events: seq<Event>, qclass: int) {
    forall i :: 0 <= i < |events| && events[i].Finished? ==> Fits(events[i].f.key, qclass)
  }

  /** For plain keys, an entry of the persistent store is shared exactly by the keys that differ in class at most. */
  lemma DiskKeyIff(a: Key, b: Key)
    requires PlainKey(a) && PlainKey(b)
    ensures DiskKeyOf(a) == DiskKeyOf(b) <==> a == b.(question := b.question.(qclass := a.question.qclass))
  {
    if DiskKeyOf(a) == DiskKeyOf(b) {
      NameIsInjective(a, b);
    }
  }

  /** Two questions that differ in class only: the answer to one is served for the other. */
  lemma ClassesCollide(cfg: Config, f: Finish, qclass: int)
    requires Stored(f).Some?
    ensures
      var (key, kept) := Stored(f).value;
      var other := key.(question := key.question.(qclass := qclass));
      LoadDisk(cfg, DiskAfter(cfg, [Finished(f)]), other, f.now) == Serve(cfg, kept, f.now)
  {
    var (key, kept) := Stored(f).value;
    var other := key.(question := key.question.(qclass := qclass));
    assert PersistentName(key) == PersistentName(other);
    assert [Finished(f)][..0] == [];
    assert DiskAfter(cfg, [Finished(f)]) == PutDisk(NewDisk, Stored(f));
  }

  /** What is found under a key is what was last stored, as it was or in whole seconds. */
  ghost predicate Holds(disk: Disk, entry: DiskKey, last: Option<Kept>) {
    && (entry in disk.pending ==> last == Some(disk.pending[entry]))
    && (entry !in disk.pending && entry in disk.written ==> last.Some? && disk.written[entry] == Truncated(last.value))
  }

  lemma {:induction false} DiskIsLastStored(cfg: Config, events: seq<Event>, qclass: int, key: Key)
    requires AllFit(events, qclass) && Fits(key, qclass)
    ensures Holds(DiskAfter(cfg, events), DiskKeyOf(key), LastKept(events, key))
  {
    if events != [] {
      var n := |events| - 1;
      DiskIsLastStored(cfg, events[..n], qclass, key);
      DiskStepHolds(cfg, DiskAfter(cfg, events[..n]), events[n], qclass, key, LastKept(events[..n], key));
    }
  }

  function KeptAfter(event: Event, key: Key, last: Option<Kept>): Option<Kept> {
    if event.Cleared? then None else if StoresUnder(event, key) then Some(Stored(event.f).value.1) else last
  }

  lemma DiskStepHolds(cfg: Config, disk: Disk, event: Event, qclass: int, key: Key, last: Option<Kept>)
    requires Fits(key, qclass) && Holds(disk, DiskKeyOf(key), last) && (event.Finished? ==> Fits(event.f.key, qclass))
    ensures Holds(DiskStep(cfg, disk, event), DiskKeyOf(key), KeptAfter(event, key, last))
  {
    if event.Finished? && Stored(event.f).Some? {
      DiskKeyIff(key, Stored(event.f).value.0);
    }
  }

  /** The answer comes from the exchange f, which stored it under the key with this expiry. */
  predicate Traces(cfg: Config, f: Finish, key: Key, expireAt: int, served: Served, now: int) {
    && (f.response.rcode == 0 || f.response.rcode == 3) && f.checked != Some(false) && !f.disableCache
    && f.key.question == key.question && f.key.tag == key.tag && f.key.subnet == key.subnet
    && f.environment == key.environment && (f.key.environment == 0 || f.key.environment == key.environment)
    && served.message == Normalized(f.response, if cfg.disableExpire then Lifetime(f) else if served.stale then 1 else served.ttl)
    && (if cfg.disableExpire then served.ttl == 0 && !served.stale
        else if served.stale then expireAt < now < expireAt + cfg.optimistic
        else served.ttl * SECOND <= expireAt - now < (served.ttl + 1) * SECOND)
  }

  lemma ServedTraces(cfg: Config, f: Finish, kept: Kept, now: int)
    requires Stored(f).Some? && kept.message == Stored(f).value.1.message && Serve(cfg, kept, now).Some?
    ensures Traces(cfg, f, Stored(f).value.0, kept.expireAt, Serve(cfg, kept, now).value, now)
  {
    StoredIff(f);
    NormalizedTwice(f.response, Lifetime(f), Serve(cfg, kept, now).value.ttl);
    NormalizedTwice(f.response, Lifetime(f), 1);
  }

  function ExpiryOf(f: Finish): int {
    f.now + Lifetime(f) * SECOND
  }

  /**
   Every answer from memory is the last one stored for its key: it came with NOERROR or NXDOMAIN from an exchange
   on that transport, question and subnet, in that environment, and differs from that response in TTLs only.
   */
  lemma {:induction false} AnswerProvenance(cfg: Config, events: seq<Event>, key: Key, now: int)
    requires LoadMemory(cfg, MemoryAfter(cfg, events), key, now).Some?
    ensures
      var served, last := LoadMemory(cfg, MemoryAfter(cfg, events), key, now).value, LastStored(events, key);
      last.Some? && Traces(cfg, last.value, key, ExpiryOf(last.value), served, now)
  {
    MemoryIsLastStored(cfg, events, key);
    ServedTraces(cfg, LastStored(events, key).value, MemoryAfter(cfg, events)[key], now);
  }

  /** The same for the persistent store, with an expiry that may have lost its part of a second. */
  lemma {:induction false} SavedAnswerProvenance(cfg: Config, events: seq<Event>, qclass: int, key: Key, now: int)
    requires AllFit(events, qclass) && Fits(key, qclass)
    requires LoadDisk(cfg, DiskAfter(cfg, events), key, now).Some?
    ensures
      var served, last := LoadDisk(cfg, DiskAfter(cfg, events), key, now).value, LastStored(events, key);
      last.Some? && exists expireAt ::
        ExpiryOf(last.value) - SECOND < expireAt <= ExpiryOf(last.value) && Traces(cfg, last.value, key, expireAt, served, now)
  {
    DiskIsLastStored(cfg, events, qclass, key);
    var kept := Lookup(DiskAfter(cfg, events), DiskKeyOf(key)).value;
    ServedTraces(cfg, LastStored(events, key).value, kept, now);
    assert ExpiryOf(LastStored(events, key).value) - SECOND < kept.expireAt <= ExpiryOf(LastStored(events, key).value);
  }

  // ---------------------------------------------------------------- the two stores compared

  function TimeOf(event: Event): Option<int> {
    match event
    case Finished(f) => Some(f.now)
    case Loaded(_, now) => Some(now)
    case Cleaned(at) => Some(at)
    case _ => None
  }

  /** No event is later than this. */
  predicate Until(events: seq<Event>, now: int) {
    forall i :: 0 <= i < |events| && TimeOf(events[i]).Some? ==> TimeOf(events[i]).value <= now
  }

  /** A history without eviction, on keys the persistent store can tell apart, at times that do not go back. */
  ghost predicate Plausible(cfg: Config, events: seq<Event>, qclass: int) {
    && AllFit(events, qclass)
    && (forall i :: 0 <= i < |events| ==> !events[i].Evicted? && (events[i].Cleaned? ==> cfg.optimistic >= 0))
    && (forall i :: 0 <= i < |events| && TimeOf(events[i]).Some? ==> Until(events[..i], TimeOf(events[i]).value))
  }

  lemma PlausiblePrefix(cfg: Config, events: seq<Event>, qclass: int, n: nat)
    requires Plausible(cfg, events, qclass) && n <= |events|
    ensures Plausible(cfg, events[..n], qclass)
  {
    forall i | 0 <= i < n && TimeOf(events[..n][i]).Some?
      ensures Until(events[..n][..i], TimeOf(events[..n][i]).value)
    {
      assert events[..n][..i] == events[..i];
    }
  }

  /** An entry that was stored is still there, or dead. */
  ghost predicate Present(cfg: Config, memory: Memory, disk: Disk, key: Key, last: Option<Kept>, now: int) {
    && (last.None? ==> key !in memory && Lookup(disk, DiskKeyOf(key)).None?)
    && (last.Some? && key !in memory ==> Dead(cfg, last.value, now))
    && (last.Some? && Lookup(disk, DiskKeyOf(key)).None? ==> Dead(cfg, Truncated(last.value), now))
  }

  lemma PresentStep(cfg: Config, memory: Memory, disk: Disk, event: Event, qclass: int, key: Key, last: Option<Kept>, now: int)
    requires Fits(key, qclass) && Present(cfg, memory, disk, key, last, now) && Holds(disk, DiskKeyOf(key), last)
    requires key in memory ==> last == Some(memory[key])
    requires !event.Evicted? && (event.Cleaned? ==> cfg.optimistic >= 0) && (event.Finished? ==> Fits(event.f.key, qclass))
    requires TimeOf(event).Some? ==> TimeOf(event).value <= now
    ensures Present(cfg, MemoryStep(cfg, memory, event), DiskStep(cfg, disk, event), key, KeptAfter(event, key, last), now)
  {
    if event.Finished? && Stored(event.f).Some? {
      DiskKeyIff(key, Stored(event.f).value.0);
    }
  }

  lemma {:induction false} HistoryPresent(cfg: Config, events: seq<Event>, qclass: int, key: Key, now: int)
    requires Plausible(cfg, events, qclass) && Until(events, now) && Fits(key, qclass)
    ensures Present(cfg, MemoryAfter(cfg, events), DiskAfter(cfg, events), key, LastKept(events, key), now)
  {
    if events != [] {
      var n := |events| - 1;
      var before := events[..n];
      PlausiblePrefix(cfg, events, qclass, n);
      HistoryPresent(cfg, before, qclass, key, now);
      DiskIsLastStored(cfg, before, qclass, key);
      if key in MemoryAfter(cfg, before) {
        MemoryIsLastStored(cfg, before, key);
      }
      PresentStep(cfg, MemoryAfter(cfg, before), DiskAfter(cfg, before), events[n], qclass, key, LastKept(before, key), now);
    }
  }

  ghost predicate StoresServed(cfg: Config, events: seq<Event>, key: Key, now: int) {
    var memory, disk := MemoryAfter(cfg, events), DiskAfter(cfg, events);
    match LastKept(events, key)
    case None => LoadMemory(cfg, memory, key, now).None? && LoadDisk(cfg, disk, key, now).None?
    case Some(kept) =>
      && LoadMemory(cfg, memory, key, now) == Serve(cfg, kept, now)
      && LoadDisk(cfg, disk, key, now) == Serve(cfg, if DiskKeyOf(key) in disk.pending then kept else Truncated(kept), now)
  }

  /**
   After the same history, memory serves the last entry stored, and the persistent store serves it as it was while it
   is still to be saved, and in whole seconds after that.
   */
  lemma StoresServe(cfg: Config, events: seq<Event>, qclass: int, key: Key, now: int)
    requires Plausible(cfg, events, qclass) && Until(events, now) && Fits(key, qclass)
    ensures StoresServed(cfg, events, key, now)
  {
    HistoryPresent(cfg, events, qclass, key, now);
    DiskIsLastStored(cfg, events, qclass, key);
    if key in MemoryAfter(cfg, events) {
      MemoryIsLastStored(cfg, events, key);
    }
  }

  /**
   The two stores give the same answer for an entry that is still to be saved, that expires at a whole second, or
   that does not expire; otherwise answers that differ by the part of a second that saving takes off.
   */
  lemma StoresAgree(cfg: Config, events: seq<Event>, qclass: int, key: Key, now: int)
    requires Plausible(cfg, events, qclass) && Until(events, now) && Fits(key, qclass)
    ensures
      var last := LastKept(events, key);
      var fromMemory, fromDisk := LoadMemory(cfg, MemoryAfter(cfg, events), key, now), LoadDisk(cfg, DiskAfter(cfg, events), key, now);
      && (last.None? ==> fromMemory.None? && fromDisk.None?)
      && (last.Some? ==> NearlySame(cfg, last.value, fromMemory, fromDisk, now))
      && (last.Some? && (DiskKeyOf(key) in DiskAfter(cfg, events).pending || cfg.disableExpire || last.value.expireAt % SECOND == 0) ==>
            fromMemory == fromDisk)
  {
    StoresServe(cfg, events, qclass, key, now);
    var last := LastKept(events, key);
    if last.Some? {
      TruncationIsNear(cfg, last.value, now);
      TruncationIff(cfg, last.value);
      ExactIsNear(cfg, last.value, now);
    }
  }

  lemma ExactIsNear(cfg: Config, kept: Kept, now: int)
    ensures NearlySame(cfg, kept, Serve(cfg, kept, now), Serve(cfg, kept, now), now)
  {
  }

  /** The last moment at which an entry is served. */
  function LastMoment(cfg: Config, kept: Kept): int {
    if cfg.optimistic > 0 then kept.expireAt + cfg.optimistic - 1 else kept.expireAt
  }

  lemma DiffersAtLast(cfg: Config, kept: Kept)
    requires !cfg.disableExpire && kept.expireAt % SECOND != 0
    ensures Serve(cfg, kept, LastMoment(cfg, kept)) != Serve(cfg, Truncated(kept), LastMoment(cfg, kept))
  {
    assert Truncated(kept).expireAt < kept.expireAt;
  }

  lemma NothingAfterLast(cfg: Config, kept: Kept, now: int)
    requires !cfg.disableExpire && now > LastMoment(cfg, kept)
    ensures Serve(cfg, kept, now).None? && Serve(cfg, Truncated(kept), now).None?
  {
  }

  /** From now on the two stores agree on a key, whenever they are asked. */
  ghost predicate AgreeFromNow(cfg: Config, events: seq<Event>, key: Key) {
    forall now :: Until(events, now) ==>
      LoadMemory(cfg, MemoryAfter(cfg, events), key, now) == LoadDisk(cfg, DiskAfter(cfg, events), key, now)
  }

  /** When they do: nothing is stored, it is still to be saved, it has no part of a second to lose, or it is over. */
  lemma StoresAgreeIff(cfg: Config, events: seq<Event>, qclass: int, key: Key)
    requires Plausible(cfg, events, qclass) && Fits(key, qclass)
    ensures
      var last := LastKept(events, key);
      AgreeFromNow(cfg, events, key) <==>
        || last.None? || DiskKeyOf(key) in DiskAfter(cfg, events).pending
        || cfg.disableExpire || last.value.expireAt % SECOND == 0
        || !Until(events, LastMoment(cfg, last.value))
  {
    var last := LastKept(events, key);
    forall now | Until(events, now)
      ensures StoresServed(cfg, events, key, now)
    {
      StoresServe(cfg, events, qclass, key, now);
    }
    if last.None? {
    } else if DiskKeyOf(key) in DiskAfter(cfg, events).pending {
    } else if cfg.disableExpire || last.value.expireAt % SECOND == 0 {
      TruncationIff(cfg, last.value);
    } else if Until(events, LastMoment(cfg, last.value)) {
      DiffersAtLast(cfg, last.value);
      assert StoresServed(cfg, events, key, LastMoment(cfg, last.value));
    } else {
      forall now | Until(events, now)
        ensures LoadMemory(cfg, MemoryAfter(cfg, events), key, now) == LoadDisk(cfg, DiskAfter(cfg, events), key, now)
      {
        assert StoresServed(cfg, events, key, now);
        UntilLater(events, now, LastMoment(cfg, last.value));
        NothingAfterLast(cfg, last.value, now);
      }
    }
  }

  lemma UntilLater(events: seq<Event>, now: int, later: int)
    requires Until(events, now) && !Until(events, later)
    ensures now > later
  {
  }
}
