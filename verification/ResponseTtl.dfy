/** The records of a DNS response and their time to live. */
module ResponseTtl {
  import opened Wrappers

  /**
   A record. The TTL field of an option record (section 6.1.3 of RFC 6891) is no time to live. `minimum` is the
   last field of an SOA record.
   */
  datatype Record = Record(isOpt: bool, ttl: nat, minimum: Option<nat>, data: int)

  datatype Message = Message(id: int, rcode: int, answer: seq<Record>, ns: seq<Record>, extra: seq<Record>) {
    function All(): seq<Record> { answer + ns + extra }
  }

  function Min(a: nat, b: nat): nat {
    if a < b then a else b
  }

  /** The first SOA record among these, if any. */
  function FirstSoa(records: seq<Record>): (soa: Option<Record>)
    ensures soa.None? ==> forall k :: 0 <= k < |records| ==> records[k].minimum.None?
    ensures soa.Some? ==> soa.value.minimum.Some?
    ensures soa.Some? ==>
      exists i :: 0 <= i < |records| && records[i] == soa.value && forall k :: 0 <= k < i ==> records[k].minimum.None?
  {
    if records == [] then None
    else if records[0].minimum.Some? then Some(records[0])
    else FirstSoa(records[1..])
  }

  lemma {:induction false} FirstSoaAfter(records: seq<Record>, i: nat)
    requires i <= |records| && forall k :: 0 <= k < i ==> records[k].minimum.None?
    ensures FirstSoa(records) == FirstSoa(records[i..])
  {
    if i > 0 {
      FirstSoaAfter(records[1..], i - 1);
      assert records[1..][i - 1..] == records[i..];
    }
  }

  /** Section 5 of RFC 2308: the lesser of the TTL and the minimum field of the SOA record. */
  method ExtractNegativeTtl(message: Message) returns (ttl: Option<nat>)
    ensures
      var soa := FirstSoa(message.ns);
      if soa.None? then ttl.None?
      else
        && ttl.Some? && ttl.value <= soa.value.ttl && ttl.value <= soa.value.minimum.value
        && (ttl.value == soa.value.ttl || ttl.value == soa.value.minimum.value)
  {
    for i := 0 to |message.ns|
      invariant forall k :: 0 <= k < i ==> message.ns[k].minimum.None?
    {
      var record := message.ns[i];
      FirstSoaAfter(message.ns, i);
      if record.minimum.Some? {
        if record.ttl < record.minimum.value {
          return Some(record.ttl);
        }
        return Some(record.minimum.value);
      }
    }
    FirstSoaAfter(message.ns, |message.ns|);
    return None;
  }

  /** The least positive TTL of some records, 0 if there is none. */
  ghost predicate Least(records: seq<Record>, ttl: nat) {
    && (forall r <- records :: !r.isOpt && r.ttl > 0 ==> 0 < ttl <= r.ttl)
    && (ttl > 0 ==> exists r <- records :: !r.isOpt && r.ttl == ttl)
  }

  lemma LeastIsUnique(records: seq<Record>, a: nat, b: nat)
    requires Least(records, a) && Least(records, b)
    ensures a == b
  {
    if a > 0 {
      var r :| r in records && !r.isOpt && r.ttl == a;
    }
    if b > 0 {
      var r :| r in records && !r.isOpt && r.ttl == b;
    }
  }

  lemma LeastMore(records: seq<Record>, ttl: nat, record: Record)
    requires Least(records, ttl)
    ensures Least(records + [record], if record.isOpt then ttl else if ttl == 0 || (record.ttl > 0 && record.ttl < ttl) then record.ttl else ttl)
  {
    if ttl > 0 {
      var r :| r in records && !r.isOpt && r.ttl == ttl;
      assert r in records + [record];
    }
    assert record in records + [record];
    forall r <- records + [record]
      ensures r in records || r == record
    {
    }
  }

  method LeastTtl(records: seq<Record>, seen: seq<Record>, start: nat) returns (ttl: nat)
    requires Least(seen, start)
    ensures Least(seen + records, ttl)
  {
    ttl := start;
    assert seen + records[..0] == seen;
    for i := 0 to |records|
      invariant Least(seen + records[..i], ttl)
    {
      LeastMore(seen + records[..i], ttl, records[i]);
      assert seen + records[..i + 1] == seen + records[..i] + [records[i]];
      if !records[i].isOpt {
        if ttl == 0 || (records[i].ttl > 0 && records[i].ttl < ttl) {
          ttl := records[i].ttl;
        }
      }
    }
    assert records[..|records|] == records;
  }

  /** What the time to live of a response means: that of the negative answer, else the least positive one. */
  ghost predicate IsTimeToLive(message: Message, ttl: nat) {
    if message.answer == [] && FirstSoa(message.ns).Some? then
      var soa := FirstSoa(message.ns).value;
      ttl <= soa.ttl && ttl <= soa.minimum.value && (ttl == soa.ttl || ttl == soa.minimum.value)
    else Least(message.All(), ttl)
  }

  function LeastOf(records: seq<Record>): nat {
    if records == [] then 0
    else
      var record, ttl := records[|records| - 1], LeastOf(records[..|records| - 1]);
      if record.isOpt || record.ttl == 0 || 0 < ttl < record.ttl then ttl else record.ttl
  }

  lemma {:induction false} LeastOfIsLeast(records: seq<Record>)
    ensures Least(records, LeastOf(records))
  {
    if records != [] {
      var n := |records| - 1;
      LeastOfIsLeast(records[..n]);
      LeastMore(records[..n], LeastOf(records[..n]), records[n]);
      assert records == records[..n] + [records[n]];
    }
  }

  function TimeToLive(message: Message): nat {
    var soa := FirstSoa(message.ns);
    if message.answer == [] && soa.Some? then Min(soa.value.ttl, soa.value.minimum.value) else LeastOf(message.All())
  }

  lemma TimeToLiveMeaning(message: Message, ttl: nat)
    ensures IsTimeToLive(message, ttl) <==> ttl == TimeToLive(message)
  {
    LeastOfIsLeast(message.All());
    if Least(message.All(), ttl) {
      LeastIsUnique(message.All(), ttl, LeastOf(message.All()));
    }
  }

  method ComputeTimeToLive(message: Message) returns (ttl: nat)
    ensures ttl == TimeToLive(message)
  {
    if |message.answer| == 0 {
      var negative := ExtractNegativeTtl(message);
      if negative.Some? {
        return negative.value;
      }
    }
    ttl := LeastTtl(message.answer, [], 0);
    assert [] + message.answer == message.answer;
    ttl := LeastTtl(message.ns, message.answer, ttl);
    ttl := LeastTtl(message.extra, message.answer + message.ns, ttl);
    TimeToLiveMeaning(message, ttl);
  }

  // ---------------------------------------------------------------- rewriting

  function SetTtl(record: Record, ttl: nat): Record {
    if record.isOpt then record else record.(ttl := ttl)
  }

  function SetAll(records: seq<Record>, ttl: nat): seq<Record> {
    seq(|records|, i requires 0 <= i < |records| => SetTtl(records[i], ttl))
  }

  function Normalized(message: Message, ttl: nat): Message {
    message.(answer := SetAll(message.answer, ttl), ns := SetAll(message.ns, ttl), extra := SetAll(message.extra, ttl))
  }

  /** Writes the TTL on every record but option records, whose field of that name means something else. */
  method NormalizeRecords(records: seq<Record>, ttl: nat) returns (r: seq<Record>)
    ensures r == SetAll(records, ttl)
    ensures |r| == |records|
    ensures forall k :: 0 <= k < |records| ==>
      r[k] == Record(records[k].isOpt, if records[k].isOpt then records[k].ttl else ttl, records[k].minimum, records[k].data)
  {
    r := records;
    for i := 0 to |records|
      invariant |r| == |records|
      invariant forall k :: 0 <= k < |records| ==> r[k] == if k < i then SetTtl(records[k], ttl) else records[k]
    {
      if !r[i].isOpt {
        r := r[i := r[i].(ttl := ttl)];
      }
    }
  }

  /** Only the last TTL written counts. */
  lemma NormalizedTwice(message: Message, first: nat, second: nat)
    ensures Normalized(Normalized(message, first), second) == Normalized(message, second)
  {
    assert SetAll(SetAll(message.answer, first), second) == SetAll(message.answer, second);
    assert SetAll(SetAll(message.ns, first), second) == SetAll(message.ns, second);
    assert SetAll(SetAll(message.extra, first), second) == SetAll(message.extra, second);
  }

  lemma LeastOfSet(records: seq<Record>, ttl: nat)
    requires exists r <- records :: !r.isOpt
    ensures Least(SetAll(records, ttl), ttl)
  {
    var i :| 0 <= i < |records| && !records[i].isOpt;
    assert SetAll(records, ttl)[i].ttl == ttl;
    assert SetAll(records, ttl)[i] in SetAll(records, ttl);
  }

  /** A rewritten response with an answer has the time to live that was written. */
  lemma NormalizedTimeToLive(message: Message, ttl: nat)
    requires exists r <- message.answer :: !r.isOpt
    ensures IsTimeToLive(Normalized(message, ttl), ttl)
  {
    var m := Normalized(message, ttl);
    assert m.All() == SetAll(message.All(), ttl);
    var r :| r in message.answer && !r.isOpt;
    assert r in message.All();
    LeastOfSet(message.All(), ttl);
  }
}
