/** The answer cache of the DNS client, in memory or in a persistent store. */
module ClientCache {
  import opened Wrappers
  import opened CacheKey
  import opened ResponseTtl

  /** Times and durations are in nanoseconds. */
  const SECOND := 1_000_000_000

  const NOERROR := 0
  const NXDOMAIN := 3

  datatype Config = Config(disableExpire: bool, optimistic: int)

  datatype Kept = Kept(message: Message, expireAt: int)

  datatype Served = Served(message: Message, ttl: nat, stale: bool)

  // ---------------------------------------------------------------- serving

  /** Past its lifetime and past the time it may be served stale. */
  predicate Dead(cfg: Config, kept: Kept, now: int) {
    !cfg.disableExpire && now > kept.expireAt && !(cfg.optimistic > 0 && now < kept.expireAt + cfg.optimistic)
  }

  function Serve(cfg: Config, kept: Kept, now: int): Option<Served> {
    if cfg.disableExpire then Some(Served(kept.message, 0, false))
    else if now > kept.expireAt then
      if cfg.optimistic > 0 && now < kept.expireAt + cfg.optimistic then Some(Served(Normalized(kept.message, 1), 0, true)) else None
    else
      var ttl := (kept.expireAt - now) / SECOND;
      Some(Served(Normalized(kept.message, ttl), ttl, false))
  }

  /** The TTL on a fresh answer is the remaining lifetime in whole seconds; a stale answer is past that and carries 1. */
  lemma ServedLifetime(cfg: Config, kept: Kept, now: int, later: int)
    requires !cfg.disableExpire && now <= later
    requires Serve(cfg, kept, now).Some? && Serve(cfg, kept, later).Some?
    ensures
      var first, second := Serve(cfg, kept, now).value, Serve(cfg, kept, later).value;
      && (!first.stale ==> first.ttl * 1_000_000_000 <= kept.expireAt - now < (first.ttl + 1) * 1_000_000_000)
      && (!first.stale ==> first.message == Normalized(kept.message, first.ttl))
      && (first.stale <==> kept.expireAt < now)
      && (first.stale ==> now < kept.expireAt + cfg.optimistic && first.ttl == 0 && first.message == Normalized(kept.message, 1))
      && (first.stale ==> second.stale)
      && second.ttl <= first.ttl
  {
  }

  /** An answer is not served exactly when it can expire and is past its lifetime and the optimistic time after it. */
  lemma DeadForGood(cfg: Config, kept: Kept, now: int, later: int)
    requires now <= later
    ensures Serve(cfg, kept, now).None? <==>
      !cfg.disableExpire && now > kept.expireAt && (cfg.optimistic <= 0 || now >= kept.expireAt + cfg.optimistic)
    ensures Serve(cfg, kept, now).None? <==> Dead(cfg, kept, now)
    ensures Dead(cfg, kept, now) ==> Dead(cfg, kept, later)
    ensures cfg.disableExpire ==> Serve(cfg, kept, now) == Some(Served(kept.message, 0, false))
  {
  }

  // ---------------------------------------------------------------- storing

  /** The end of an exchange or of a background refresh. `checked` is the verdict of the caller's response checker. */
  datatype Finish = Finish(key: Key, response: Message, disableCache: bool, checked: Option<bool>, rewrite: Option<nat>, environment: nat, id: int, now: int)

  predicate CacheableCode(rcode: int) {
    rcode == NOERROR || rcode == NXDOMAIN
  }

  predicate Rejected(f: Finish) {
    f.checked.Some? && (!CacheableCode(f.response.rcode) || !f.checked.value)
  }

  function Lifetime(f: Finish): nat {
    if f.rewrite.Some? then f.rewrite.value else TimeToLive(f.response)
  }

  /** What the exchange leaves in the cache. */
  function Stored(f: Finish): Option<(Key, Kept)> {
    var key := FinishKey(f.key, f.environment);
    var ttl := Lifetime(f);
    if f.disableCache || !CacheableCode(f.response.rcode) || Rejected(f) || key.None? || ttl == 0 then None
    else Some((key.value, Kept(Normalized(f.response, ttl), f.now + ttl * SECOND)))
  }

  /** The checker says no, or there is one and the response is a failure other than a missing name. */
  lemma RejectedIff(f: Finish)
    ensures Rejected(f) <==> f.checked == Some(false) || (f.checked.Some? && f.response.rcode != 0 && f.response.rcode != 3)
  {
  }

  /**
   Something is stored exactly when the cache is on, the response is NOERROR (0) or NXDOMAIN (3), no checker refuses
   it, the environment has not changed from a known one, and it may live for a second at least.
   */
  lemma StoredIff(f: Finish)
    ensures Stored(f).Some? <==>
      && !f.disableCache && (f.response.rcode == 0 || f.response.rcode == 3) && f.checked != Some(false)
      && (f.key.environment == 0 || f.key.environment == f.environment)
      && (if f.rewrite.Some? then f.rewrite.value else TimeToLive(f.response)) > 0
    ensures Stored(f).Some? ==>
      var ttl := if f.rewrite.Some? then f.rewrite.value else TimeToLive(f.response);
      && Stored(f).value.0 == f.key.(environment := f.environment)
      && Stored(f).value.1 == Kept(Normalized(f.response, ttl), f.now + ttl * 1_000_000_000)
  {
    RejectedIff(f);
  }

  type DiskKey = (seq<byte>, int, int)

  /** The persistent store has no place for the class of the question. */
  function DiskKeyOf(key: Key): DiskKey {
    (PersistentName(key), key.question.name, key.question.qtype)
  }

  type Memory = map<Key, Kept>

  /** The persistent store: entries still to be saved, as they are, and saved ones. */
  datatype Disk = Disk(pending: map<DiskKey, Kept>, written: map<DiskKey, Kept>)

  const NewDisk := Disk(map[], map[])

  /** A saved entry has its expiry in whole seconds. */
  function Truncated(kept: Kept): Kept {
    kept.(expireAt := kept.expireAt / SECOND * SECOND)
  }

  function PutMemory(memory: Memory, stored: Option<(Key, Kept)>): Memory {
    if stored.None? then memory else memory[stored.value.0 := stored.value.1]
  }

  function PutDisk(disk: Disk, stored: Option<(Key, Kept)>): Disk {
    if stored.None? then disk else disk.(pending := disk.pending[DiskKeyOf(stored.value.0) := stored.value.1])
  }

  function FlushDisk(disk: Disk, key: DiskKey): Disk {
    if key in disk.pending then Disk(disk.pending - {key}, disk.written[key := Truncated(disk.pending[key])]) else disk
  }

  /** What the cleanup of saved entries removes. */
  predicate Expired(cfg: Config, kept: Kept, now: int) {
    !cfg.disableExpire && now > kept.expireAt + cfg.optimistic
  }

  function CleanDisk(cfg: Config, disk: Disk, now: int): Disk {
    disk.(written := map key | key in disk.written && !Expired(cfg, disk.written[key], now) :: disk.written[key])
  }

  /** Entries still to be saved come first. */
  function Lookup(disk: Disk, key: DiskKey): Option<Kept> {
    if key in disk.pending then Some(disk.pending[key]) else if key in disk.written then Some(disk.written[key]) else None
  }

  function LoadMemory(cfg: Config, memory: Memory, key: Key, now: int): Option<Served> {
    if key in memory then Serve(cfg, memory[key], now) else None
  }

  function LoadDisk(cfg: Config, disk: Disk, key: Key, now: int): Option<Served> {
    var kept := Lookup(disk, DiskKeyOf(key));
    if kept.Some? then Serve(cfg, kept.value, now) else None
  }

  /** A load from memory drops a dead entry. */
  function Swept(cfg: Config, memory: Memory, key: Key, now: int): Memory {
    if key in memory && Dead(cfg, memory[key], now) then memory - {key} else memory
  }

  lemma SomeKey(keys: set<DiskKey>)
    ensures keys == {} || exists key :: key in keys
  {
    if forall key :: key !in keys {
      assert keys == {};
    }
  }

  // ---------------------------------------------------------------- whole seconds

  /** A whole-second expiry changes no answer exactly when the expiry was a whole second, or does not count. */
  lemma TruncationIff(cfg: Config, kept: Kept)
    ensures (forall now :: Serve(cfg, Truncated(kept), now) == Serve(cfg, kept, now)) <==>
      cfg.disableExpire || kept.expireAt % SECOND == 0
  {
    var now := kept.expireAt;
    if !cfg.disableExpire && kept.expireAt % SECOND != 0 {
      assert Truncated(kept).expireAt < now;
      assert Serve(cfg, Truncated(kept), now) != Serve(cfg, kept, now);
    }
  }

  /** The entry expires at 10.9 seconds: saved, it has one second less at 1.5, and is gone at 10.5. */
  lemma TruncationShows(message: Message)
    ensures
      var cfg, kept := Config(false, 0), Kept(message, 10_900_000_000);
      && Serve(cfg, kept, 1_500_000_000) == Some(Served(Normalized(message, 9), 9, false))
      && Serve(cfg, Truncated(kept), 1_500_000_000) == Some(Served(Normalized(message, 8), 8, false))
      && Serve(cfg, kept, 10_500_000_000) == Some(Served(Normalized(message, 0), 0, false))
      && Serve(cfg, Truncated(kept), 10_500_000_000) == None
  {
  }

  /**
   What a saved entry serves where the exact one serves `exact`: the same message, with the same TTL or one less; it
   turns stale, and is gone, at most one second earlier and never later.
   */
  predicate NearlySame(cfg: Config, kept: Kept, exact: Option<Served>, saved: Option<Served>, now: int) {
    && (cfg.disableExpire ==> saved == exact)
    && (saved.Some? ==>
          && exact.Some? && (exact.value.stale ==> saved.value.stale)
          && (!cfg.disableExpire ==> saved.value.message == Normalized(kept.message, if saved.value.stale then 1 else saved.value.ttl))
          && (!saved.value.stale ==> exact.value.ttl - 1 <= saved.value.ttl <= exact.value.ttl)
          && (saved.value.stale == exact.value.stale && saved.value.ttl == exact.value.ttl ==> saved == exact)
          && (saved.value.stale && !exact.value.stale ==> kept.expireAt - SECOND < now <= kept.expireAt))
    && (saved.None? && exact.Some? ==>
          if exact.value.stale then kept.expireAt + cfg.optimistic - SECOND < now < kept.expireAt + cfg.optimistic
          else kept.expireAt - SECOND < now <= kept.expireAt && cfg.optimistic < SECOND)
  }

  lemma TruncationIsNear(cfg: Config, kept: Kept, now: int)
    ensures NearlySame(cfg, kept, Serve(cfg, kept, now), Serve(cfg, Truncated(kept), now), now)
  {
  }

  /** Cleaning up changes no later answer exactly when the optimistic timeout is not negative, or nothing expires. */
  lemma CleanupIff(cfg: Config)
    ensures (forall kept: Kept, now, later :: Expired(cfg, kept, now) && now <= later ==> Serve(cfg, kept, later).None?) <==>
      cfg.disableExpire || cfg.optimistic >= 0
  {
    if !cfg.disableExpire && cfg.optimistic < 0 {
      var kept := Kept(Message(0, 0, [], [], []), 0);
      assert Expired(cfg, kept, 0) && Serve(cfg, kept, 0).Some?;
    }
  }

  // ---------------------------------------------------------------- the client

  /** A message on the heap. */
  class Response {
    var value: Message

    constructor (value: Message)
      ensures this.value == value
    {
      this.value := value;
    }

    method Copy() returns (copy: Response)
      ensures fresh(copy) && copy.value == value
    {
      copy := new Response(value);
    }

    method Normalize(ttl: nat)
      modifies this
      ensures value == Normalized(old(value), ttl)
    {
      var answer := NormalizeRecords(value.answer, ttl);
      value := value.(answer := answer);
      var ns := NormalizeRecords(value.ns, ttl);
      value := value.(ns := ns);
      var extra := NormalizeRecords(value.extra, ttl);
      value := value.(extra := extra);
    }

    /** Writes one TTL on all records: the one asked for, else the one computed. */
    method ApplyResponseOptions(rewrite: Option<nat>) returns (ttl: nat)
      modifies this
      ensures ttl == if rewrite.Some? then rewrite.value else TimeToLive(old(value))
      ensures value == Normalized(old(value), ttl)
    {
      ttl := ComputeTimeToLive(value);
      if rewrite.Some? {
        ttl := rewrite.value;
      }
      Normalize(ttl);
    }
  }

  datatype Slot = Slot(response: Response, expireAt: int)

  /** The client, with either kind of store. `Repr` are the messages only the cache refers to. */
  class Client {
    const cfg: Config
    const persistent: bool
    var entries: map<Key, Slot>
    var pending: map<DiskKey, Kept>
    var written: map<DiskKey, Kept>
    ghost var Repr: set<object>

    ghost predicate Valid()
      reads this, Repr
    {
      this !in Repr && forall key :: key in entries ==> entries[key].response in Repr
    }

    function Saved(): Disk
      reads this
    {
      Disk(pending, written)
    }

    ghost function Contents(): Memory
      reads this, Repr
      requires Valid()
    {
      map key | key in entries :: Kept(entries[key].response.value, entries[key].expireAt)
    }

    constructor (cfg: Config, persistent: bool)
      ensures Valid() && fresh(Repr) && Contents() == map[] && Saved() == NewDisk && this.cfg == cfg && this.persistent == persistent
    {
      this.cfg, this.persistent := cfg, persistent;
      entries, pending, written, Repr := map[], map[], map[], {};
    }

    /** Keeps a copy. */
    method StoreCache(key: Key, message: Response, ttl: nat, now: int)
      requires Valid()
      modifies this`entries, this`pending, this`Repr
      ensures Valid() && fresh(Repr - old(Repr)) && old(Repr) <= Repr
      ensures
        var stored := if ttl == 0 then None else Some((key, Kept(message.value, now + ttl * SECOND)));
        if persistent then Contents() == old(Contents()) && Saved() == PutDisk(old(Saved()), stored)
        else Saved() == old(Saved()) && Contents() == PutMemory(old(Contents()), stored)
    {
      if ttl == 0 {
        return;
      }
      if persistent {
        pending := pending[DiskKeyOf(key) := Kept(message.value, now + ttl * SECOND)];
        return;
      }
      var copy := message.Copy();
      Repr := Repr + {copy};
      entries := entries[key := Slot(copy, now + ttl * SECOND)];
    }

    /** Stores an accepted response, under the environment of now. */
    method StoreFinished(f: Finish, response: Response, ttl: nat)
      requires Valid() && !Rejected(f) && ttl == Lifetime(f) && response.value == Normalized(f.response, ttl)
      modifies this`entries, this`pending, this`Repr
      ensures Valid() && fresh(Repr - old(Repr)) && old(Repr) <= Repr
      ensures
        if persistent then Contents() == old(Contents()) && Saved() == PutDisk(old(Saved()), Stored(f))
        else Saved() == old(Saved()) && Contents() == PutMemory(old(Contents()), Stored(f))
    {
      if !f.disableCache && CacheableCode(response.value.rcode) {
        var key := FinishKey(f.key, f.environment);
        if key.Some? {
          StoreCache(key.value, response, ttl, f.now);
        }
      }
    }

    /** The end of an exchange. The response stays with the caller, who may change it at will. */
    method FinishExchange(f: Finish, response: Response) returns (rejected: bool)
      requires Valid() && response !in Repr && response.value == f.response
      modifies this`entries, this`pending, this`Repr, response
      ensures Valid() && fresh(Repr - old(Repr)) && old(Repr) <= Repr && response !in Repr
      ensures rejected <==> f.checked == Some(false) || (f.checked.Some? && f.response.rcode != 0 && f.response.rcode != 3)
      ensures
        if persistent then Contents() == old(Contents()) && Saved() == PutDisk(old(Saved()), Stored(f))
        else Saved() == old(Saved()) && Contents() == PutMemory(old(Contents()), Stored(f))
      ensures response.value ==
        if rejected then f.response
        else Normalized(f.response, if f.rewrite.Some? then f.rewrite.value else TimeToLive(f.response)).(id := f.id)
    {
      rejected := f.checked.Some? && (!CacheableCode(response.value.rcode) || !f.checked.value);
      if !rejected {
        var ttl := response.ApplyResponseOptions(f.rewrite);
        assert Contents() == old(Contents());
        StoreFinished(f, response, ttl);
        response.value := response.value.(id := f.id);
      }
    }

    method LoadMemoryResponse(key: Key, now: int) returns (response: Response?, ttl: nat, stale: bool)
      requires Valid() && !persistent
      modifies this`entries
      ensures Valid() && Contents() == Swept(cfg, old(Contents()), key, now)
      ensures response == null <==> LoadMemory(cfg, old(Contents()), key, now).None?
      ensures response != null ==> fresh(response) && LoadMemory(cfg, old(Contents()), key, now) == Some(Served(response.value, ttl, stale))
    {
      response, ttl, stale := null, 0, false;
      if key !in entries {
        return;
      }
      var slot := entries[key];
      if cfg.disableExpire {
        response := slot.response.Copy();
        return;
      }
      if now > slot.expireAt {
        if cfg.optimistic > 0 && now < slot.expireAt + cfg.optimistic {
          response := slot.response.Copy();
          response.Normalize(1);
          stale := true;
          return;
        }
        entries := entries - {key};
        return;
      }
      ttl := (slot.expireAt - now) / SECOND;
      response := slot.response.Copy();
      response.Normalize(ttl);
    }

    /** Saves an entry and forgets the pending one. */
    method Flush(key: DiskKey)
      modifies this`pending, this`written
      ensures Saved() == FlushDisk(old(Saved()), key)
    {
      if key in pending {
        written := written[key := Truncated(pending[key])];
        pending := pending - {key};
      }
    }

    /** Removes saved entries that are past their time. */
    method CleanUp(now: int)
      modifies this`written
      ensures Saved() == CleanDisk(cfg, old(Saved()), now)
    {
      var todo := written.Keys;
      while todo != {}
        invariant todo <= old(written).Keys && todo <= written.Keys <= old(written).Keys
        invariant forall key :: key in written ==> written[key] == old(written)[key] && (key in todo || !Expired(cfg, written[key], now))
        invariant forall key :: key in old(written) && !Expired(cfg, old(written)[key], now) ==> key in written
      {
        SomeKey(todo);
        var key :| key in todo;
        if Expired(cfg, written[key], now) {
          written := written - {key};
        }
        todo := todo - {key};
      }
      assert Saved().written == CleanDisk(cfg, old(Saved()), now).written;
    }

    method ClearCache()
      modifies this`entries, this`pending, this`written
      requires Valid()
      ensures Valid() && Contents() == map[] && Saved() == NewDisk
    {
      entries, pending, written := map[], map[], map[];
    }

    method LoadPersistentResponse(key: Key, now: int) returns (response: Response?, ttl: nat, stale: bool)
      ensures response == null <==> LoadDisk(cfg, Saved(), key, now).None?
      ensures response != null ==> fresh(response) && LoadDisk(cfg, Saved(), key, now) == Some(Served(response.value, ttl, stale))
    {
      response, ttl, stale := null, 0, false;
      var found := Lookup(Saved(), DiskKeyOf(key));
      if found.None? {
        return;
      }
      var kept := found.value;
      var message := new Response(kept.message);
      if cfg.disableExpire {
        return message, 0, false;
      }
      if now > kept.expireAt {
        if cfg.optimistic > 0 && now < kept.expireAt + cfg.optimistic {
          message.Normalize(1);
          return message, 0, true;
        }
        return;
      }
      ttl := (kept.expireAt - now) / SECOND;
      message.Normalize(ttl);
      response := message;
    }
  }

  /** Whatever a caller does to an answer it was given, the next load is not affected. */
  method TamperIsInvisible(client: Client, key: Key, now: int, value: Message) returns (first: Response?, second: Response?)
    requires client.Valid() && !client.persistent && LoadMemory(client.cfg, client.Contents(), key, now).Some?
    modifies client`entries
    ensures client.Valid() && client.Contents() == old(client.Contents())
    ensures first != null && second != null && first != second && first.value == value
    ensures second.value == LoadMemory(client.cfg, old(client.Contents()), key, now).value.message
  {
    var ttl, stale;
    DeadForGoodHere(client, key, now);
    first, ttl, stale := client.LoadMemoryResponse(key, now);
    first.value := value;
    second, ttl, stale := client.LoadMemoryResponse(key, now);
  }

  lemma DeadForGoodHere(client: Client, key: Key, now: int)
    requires client.Valid() && LoadMemory(client.cfg, client.Contents(), key, now).Some?
    ensures Swept(client.cfg, client.Contents(), key, now) == client.Contents()
  {
  }
}
