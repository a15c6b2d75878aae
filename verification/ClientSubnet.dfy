/** The client subnet option of a query, and the subnet part of the cache key. */
module ClientSubnet {
  import opened Wrappers

  /** A network prefix. A prefix that is not valid has -1 bits and may still hold an address. */
  datatype Prefix = Prefix(address: seq<byte>, bits: int) {
    predicate Valid() { bits >= 0 }

    predicate WellFormed() {
      if bits >= 0 then (|address| == 4 || |address| == 16) && bits <= 8 * |address| else bits == -1
    }

    /** An IPv4 address written as an IPv6 one. */
    predicate Mapped() {
      |address| == 16 && address[..10] == seq(10, _ => 0) && address[10..12] == [255, 255]
    }
  }

  const NO_PREFIX := Prefix([], -1)
  const SUBNET_CODE := 8

  /** `scope` is the one field of the option that setting a subnet leaves alone. */
  datatype EdnsOption =
    | SubnetOption(family: nat, netmask: byte, scope: byte, address: seq<byte>)
    | OtherOption(otherCode: nat, data: seq<byte>)
  {
    function Code(): nat { if SubnetOption? then SUBNET_CODE else otherCode }
  }

  datatype Record = Opt(header: int, options: seq<EdnsOption>) | OtherRecord(content: int)

  /** A message, as its additional records. */
  type Message = seq<Record>

  // Where the first subnet option is.

  function FirstOption(options: seq<EdnsOption>): (j: nat)
    ensures j <= |options| && (j < |options| ==> options[j].SubnetOption?)
    ensures forall k :: 0 <= k < j ==> !options[k].SubnetOption?
  {
    if options == [] || options[0].SubnetOption? then 0 else 1 + FirstOption(options[1..])
  }

  predicate Carries(record: Record) {
    record.Opt? && FirstOption(record.options) < |record.options|
  }

  function FirstCarrier(message: Message): (i: nat)
    ensures i <= |message| && (i < |message| ==> Carries(message[i]))
    ensures forall k :: 0 <= k < i ==> !Carries(message[k])
  {
    if message == [] || Carries(message[0]) then 0 else 1 + FirstCarrier(message[1..])
  }

  function Unmap(address: seq<byte>): seq<byte> {
    if Prefix(address, 0).Mapped() then address[12..] else address
  }

  /** The prefix an option stands for: none for an address of another length, not valid for too many bits. */
  function Decode(netmask: byte, address: seq<byte>): Prefix {
    if |address| != 4 && |address| != 16 then NO_PREFIX
    else Prefix(Unmap(address), if netmask <= 8 * |Unmap(address)| then netmask else -1)
  }

  /** The subnet a message carries. */
  function Carried(message: Message): Prefix {
    var i := FirstCarrier(message);
    if i == |message| then NO_PREFIX
    else
      var option := message[i].options[FirstOption(message[i].options)];
      Decode(option.netmask, option.address)
  }

  method ClientSubnetFromMessage(message: Message) returns (prefix: Prefix)
    ensures prefix == Carried(message)
  {
    for i := 0 to |message|
      invariant forall k :: 0 <= k < i ==> !Carries(message[k])
    {
      if message[i].Opt? {
        var options := message[i].options;
        for j := 0 to |options|
          invariant forall k :: 0 <= k < j ==> !options[k].SubnetOption?
        {
          if options[j].SubnetOption? {
            assert FirstOption(options) == j;
            assert FirstCarrier(message) == i;
            if |options[j].address| != 4 && |options[j].address| != 16 {
              return NO_PREFIX;
            }
            return Decode(options[j].netmask, options[j].address);
          }
        }
      }
    }
    return NO_PREFIX;
  }

  // Setting.

  function Encode(prefix: Prefix, scope: byte): EdnsOption
    requires prefix.WellFormed() && prefix.Valid()
  {
    SubnetOption(if |prefix.address| == 4 then 1 else 2, prefix.bits, scope, prefix.address)
  }

  /** Sets the subnet of one option record. */
  function SetRecord(record: Record, prefix: Prefix): Record
    requires record.Opt? && prefix.WellFormed() && prefix.Valid()
  {
    var j := FirstOption(record.options);
    if j < |record.options| then record.(options := record.options[j := Encode(prefix, record.options[j].scope)])
    else record.(options := record.options + [Encode(prefix, 0)])
  }

  /** The record to edit: the first that carries a subnet, else the last one if it is an option record. */
  function Target(message: Message): (i: nat)
    ensures i <= |message| && (i < |message| ==> message[i].Opt?)
  {
    var i := FirstCarrier(message);
    if i < |message| || message == [] || !message[|message| - 1].Opt? then i else |message| - 1
  }

  function WithSubnet(message: Message, prefix: Prefix): Message
    requires prefix.WellFormed() && prefix.Valid()
  {
    var i := Target(message);
    if i < |message| then message[i := SetRecord(message[i], prefix)]
    else message + [Opt(0, [Encode(prefix, 0)])]
  }

  /** The option record and the subnet option to edit, where there are some. */
  method FindSubnet(message: Message) returns (record: Option<nat>, option: Option<nat>)
    ensures record == if Target(message) < |message| then Some(Target(message)) else None
    ensures record.None? ==> option.None?
    ensures record.Some? ==>
      var j := FirstOption(message[record.value].options);
      option == if j < |message[record.value].options| then Some(j) else None
  {
    record, option := None, None;
    var i := 0;
    while i < |message| && option.None?
      invariant i <= |message|
      invariant option.None? ==> (forall k :: 0 <= k < i ==> !Carries(message[k]))
      invariant option.None? ==> record == if i > 0 && message[i - 1].Opt? then Some(i - 1) else None
      invariant option.Some? ==> record == Some(FirstCarrier(message)) && record.value < |message| && option.value == FirstOption(message[record.value].options)
      decreases |message| - i, option.None?
    {
      record := None;
      if message[i].Opt? {
        record := Some(i);
        var options := message[i].options;
        var j := 0;
        while j < |options| && option.None?
          invariant j <= |options|
          invariant option.None? ==> forall k :: 0 <= k < j ==> !options[k].SubnetOption?
          invariant option.Some? ==> option.value == FirstOption(options) < |options|
          decreases |options| - j
        {
          if options[j].SubnetOption? {
            option := Some(j);
          }
          j := j + 1;
        }
        assert option.Some? ==> FirstCarrier(message) == i;
      }
      i := i + 1;
    }
  }

  method SetClientSubnet(message: Message, prefix: Prefix) returns (result: Message)
    requires prefix.WellFormed() && prefix.Valid()
    ensures result == WithSubnet(message, prefix)
  {
    var record, option := FindSubnet(message);
    result := message;
    var i := |message|;
    if record.None? {
      result := result + [Opt(0, [])];
    } else {
      i := record.value;
    }
    var edited := result[i];
    var j := |edited.options|;
    if option.None? {
      edited := edited.(options := edited.options + [SubnetOption(0, 0, 0, [])]);
    } else {
      j := option.value;
    }
    var family := if |prefix.address| == 4 then 1 else 2;
    var updated := edited.options[j].(family := family, netmask := prefix.bits, address := prefix.address);
    assert updated == Encode(prefix, edited.options[j].scope);
    edited := edited.(options := edited.options[j := updated]);
    assert record.Some? ==> edited == SetRecord(message[i], prefix);
    assert record.None? ==> edited == Opt(0, [Encode(prefix, 0)]);
    result := result[i := edited];
  }

  // Removing.

  function Filter(options: seq<EdnsOption>): (r: seq<EdnsOption>)
    ensures forall o <- r :: o.Code() != SUBNET_CODE
    ensures (forall o <- options :: o.Code() != SUBNET_CODE) ==> r == options
  {
    if options == [] then []
    else if options[0].Code() == SUBNET_CODE then Filter(options[1..])
    else [options[0]] + Filter(options[1..])
  }

  function RemoveRecord(record: Record): Record {
    if record.Opt? then record.(options := Filter(record.options)) else record
  }

  function Without(message: Message): Message {
    seq(|message|, i requires 0 <= i < |message| => RemoveRecord(message[i]))
  }

  predicate HasSubnetCode(record: Record) {
    record.Opt? && exists o <- record.options :: o.Code() == SUBNET_CODE
  }

  lemma NothingToRemove(record: Record)
    requires !HasSubnetCode(record)
    ensures RemoveRecord(record) == record
  {
  }

  /** Returns the message itself when there is nothing to remove. */
  method RemoveClientSubnet(message: Message) returns (result: Message)
    ensures result == Without(message)
    ensures (forall record <- message :: !HasSubnetCode(record)) ==> result == message
  {
    if forall record <- message :: !HasSubnetCode(record) {
      forall i | 0 <= i < |message|
        ensures RemoveRecord(message[i]) == message[i]
      {
        NothingToRemove(message[i]);
      }
      return message;
    }
    result := message;
    for i := 0 to |message|
      invariant |result| == |message|
      invariant forall k :: 0 <= k < |message| ==> result[k] == if k < i then RemoveRecord(message[k]) else message[k]
    {
      if result[i].Opt? {
        result := result[i := result[i].(options := Filter(result[i].options))];
      }
    }
  }

  // Laws.

  lemma FirstOptionIs(options: seq<EdnsOption>, j: nat)
    requires j < |options| && options[j].SubnetOption? && forall k :: 0 <= k < j ==> !options[k].SubnetOption?
    ensures FirstOption(options) == j
  {
  }

  lemma SetRecordCarries(record: Record, prefix: Prefix)
    requires record.Opt? && prefix.WellFormed() && prefix.Valid()
    ensures
      var r := SetRecord(record, prefix);
      var j := FirstOption(record.options);
      Carries(r) && FirstOption(r.options) == j < |r.options| &&
      r.options[j] == Encode(prefix, if j < |record.options| then record.options[j].scope else 0)
  {
    FirstOptionIs(SetRecord(record, prefix).options, FirstOption(record.options));
  }

  /** Where a message with a subnet set carries it. */
  lemma SetCarries(message: Message, prefix: Prefix)
    requires prefix.WellFormed() && prefix.Valid()
    ensures
      var m := WithSubnet(message, prefix);
      var i := Target(message);
      && FirstCarrier(m) == i == Target(m) && i < |m|
      && m[i].options[FirstOption(m[i].options)].netmask == prefix.bits
      && m[i].options[FirstOption(m[i].options)].address == prefix.address
  {
    var m := WithSubnet(message, prefix);
    var i := Target(message);
    if i < |message| {
      SetRecordCarries(message[i], prefix);
    } else {
      assert FirstOption([Encode(prefix, 0)]) == 0;
    }
    assert Carries(m[i]);
    forall k | 0 <= k < i
      ensures !Carries(m[k])
    {
      assert m[k] == message[k];
    }
  }

  /** A subnet that was set is read back, exactly when it is not an IPv4 address written as an IPv6 one. */
  lemma GetAfterSet(message: Message, prefix: Prefix)
    requires prefix.WellFormed() && prefix.Valid()
    ensures Carried(WithSubnet(message, prefix)) == prefix <==> !prefix.Mapped()
  {
    SetCarries(message, prefix);
    if prefix.Mapped() {
      assert |Decode(prefix.bits, prefix.address).address| == 4;
    }
  }

  /** The option that is set: family 1 for an IPv4 address and 2 for IPv6, the bits and the address; its scope is kept. */
  lemma OptionIsRight(message: Message, prefix: Prefix)
    requires prefix.WellFormed() && prefix.Valid()
    ensures
      var m := WithSubnet(message, prefix);
      var i := Target(message);
      && i < |m| && FirstOption(m[i].options) < |m[i].options|
      && var option := m[i].options[FirstOption(m[i].options)];
         && option.family == (if |prefix.address| == 4 then 1 else 2)
         && option.netmask == prefix.bits && option.address == prefix.address
         && option.scope == if FirstCarrier(message) < |message| then message[i].options[FirstOption(message[i].options)].scope else 0
  {
    SetCarries(message, prefix);
    var i := Target(message);
    if i < |message| {
      SetRecordCarries(message[i], prefix);
    }
  }

  /**
   ::ffff:10.0.0.1/96 is carried as 10.0.0.1 with bits that do not fit, so it is read back as no valid prefix. The same
   with another bit set in front is an IPv6 prefix like any other.
   */
  lemma MappedIsLost(message: Message)
    ensures
      var prefix := Prefix([0, 0, 0, 0, 0, 0, 0, 0, 0, 0, 255, 255, 10, 0, 0, 1], 96);
      && prefix.WellFormed() && prefix.Valid() && Carried(WithSubnet(message, prefix)) == Prefix([10, 0, 0, 1], -1)
      && var other := Prefix([0, 0, 0, 0, 0, 0, 0, 0, 0, 1, 255, 255, 10, 0, 0, 1], 96);
         Carried(WithSubnet(message, other)) == other
  {
    var other := Prefix([0, 0, 0, 0, 0, 0, 0, 0, 0, 1, 255, 255, 10, 0, 0, 1], 96);
    assert other.address[..10][9] == 1;
    GetAfterSet(message, other);
    var prefix := Prefix([0, 0, 0, 0, 0, 0, 0, 0, 0, 0, 255, 255, 10, 0, 0, 1], 96);
    SetCarries(message, prefix);
    assert prefix.address[12..] == [10, 0, 0, 1];
  }

  lemma SetRecordTwice(record: Record, first: Prefix, second: Prefix)
    requires record.Opt? && first.WellFormed() && first.Valid() && second.WellFormed() && second.Valid()
    ensures SetRecord(SetRecord(record, first), second) == SetRecord(record, second)
  {
    SetRecordCarries(record, first);
    assert SetRecord(SetRecord(record, first), second).options == SetRecord(record, second).options;
  }

  /** The last subnet set wins, and nothing of the first one remains. */
  lemma LastSetWins(message: Message, first: Prefix, second: Prefix)
    requires first.WellFormed() && first.Valid() && second.WellFormed() && second.Valid()
    ensures WithSubnet(WithSubnet(message, first), second) == WithSubnet(message, second)
  {
    SetCarries(message, first);
    var i := Target(message);
    if i < |message| {
      SetRecordTwice(message[i], first, second);
    } else {
      SetRecordCarries(Opt(0, []), first);
      assert [] + [Encode(first, 0)] == [Encode(first, 0)];
      assert SetRecord(Opt(0, [Encode(first, 0)]), second).options == [Encode(second, 0)];
    }
  }

  lemma FilterDropsAll(options: seq<EdnsOption>)
    ensures FirstOption(Filter(options)) == |Filter(options)|
  {
  }

  /** After removal no subnet is carried, and removing again changes nothing. */
  lemma GetAfterRemove(message: Message)
    ensures Carried(Without(message)) == NO_PREFIX
    ensures Without(Without(message)) == Without(message)
  {
    var m := Without(message);
    forall k | 0 <= k < |m|
      ensures !Carries(m[k]) && RemoveRecord(m[k]) == m[k]
    {
      if message[k].Opt? {
        FilterDropsAll(message[k].options);
      }
    }
  }

  lemma {:induction false} FilterAppend(first: seq<EdnsOption>, second: seq<EdnsOption>)
    ensures Filter(first + second) == Filter(first) + Filter(second)
  {
    if first == [] {
      assert first + second == second;
    } else {
      assert (first + second)[1..] == first[1..] + second;
      FilterAppend(first[1..], second);
    }
  }

  lemma {:induction false} FilterUpdate(options: seq<EdnsOption>, j: nat, option: EdnsOption)
    requires j < |options| && options[j].Code() == option.Code() == SUBNET_CODE
    ensures Filter(options[j := option]) == Filter(options)
  {
    if j == 0 {
      assert options[j := option][1..] == options[1..];
    } else {
      assert options[j := option][1..] == options[1..][j - 1 := option];
      FilterUpdate(options[1..], j - 1, option);
    }
  }

  lemma RemoveSetRecord(record: Record, prefix: Prefix)
    requires record.Opt? && prefix.WellFormed() && prefix.Valid()
    ensures RemoveRecord(SetRecord(record, prefix)) == RemoveRecord(record)
  {
    var j := FirstOption(record.options);
    if j < |record.options| {
      FilterUpdate(record.options, j, Encode(prefix, record.options[j].scope));
    } else {
      FilterAppend(record.options, [Encode(prefix, 0)]);
      assert Filter([Encode(prefix, 0)]) == [];
    }
  }

  /** Setting touches nothing but subnet options, apart from an option record it may have to add. */
  lemma RemoveAfterSet(message: Message, prefix: Prefix)
    requires prefix.WellFormed() && prefix.Valid()
    ensures Without(WithSubnet(message, prefix)) == Without(message) + if Target(message) < |message| then [] else [Opt(0, [])]
  {
    var i := Target(message);
    if i < |message| {
      RemoveSetRecord(message[i], prefix);
    } else {
      assert Filter([Encode(prefix, 0)]) == [];
    }
  }

  function OptCount(message: Message): nat {
    if message == [] then 0 else OptCount(message[..|message| - 1]) + if message[|message| - 1].Opt? then 1 else 0
  }

  lemma {:induction false} OptCountUpdate(message: Message, i: nat, record: Record)
    requires i < |message| && message[i].Opt? && record.Opt?
    ensures OptCount(message[i := record]) == OptCount(message)
  {
    var n := |message| - 1;
    if i < n {
      assert message[i := record][..n] == message[..n][i := record];
      OptCountUpdate(message[..n], i, record);
    } else {
      assert message[i := record][..n] == message[..n];
    }
  }

  /** A second option record appears exactly when there is one, without a subnet, and another record follows it. */
  lemma SetKeepsOneOpt(message: Message, prefix: Prefix)
    requires prefix.WellFormed() && prefix.Valid() && OptCount(message) <= 1
    ensures OptCount(WithSubnet(message, prefix)) <= 1 <==>
      OptCount(message) == 0 || FirstCarrier(message) < |message| || message[|message| - 1].Opt?
  {
    var i := Target(message);
    if i < |message| {
      OptCountUpdate(message, i, SetRecord(message[i], prefix));
    } else {
      assert WithSubnet(message, prefix)[..|message|] == message;
    }
    if OptCount(message) == 0 && i < |message| {
      OptCountPositive(message, i);
    }
  }

  lemma {:induction false} OptCountPositive(message: Message, i: nat)
    requires i < |message| && message[i].Opt?
    ensures OptCount(message) >= 1
  {
    var n := |message| - 1;
    if i < n {
      OptCountPositive(message[..n], i);
    }
  }

  lemma SecondOptAppears()
    ensures
      var message := [Opt(0, []), OtherRecord(0)];
      OptCount(message) == 1 && OptCount(WithSubnet(message, Prefix([10, 0, 0, 0], 8))) == 2
  {
    var message := [Opt(0, []), OtherRecord(0)];
    assert message[..1] == [Opt(0, [])];
    assert OptCount(message[..1]) == 1 by { assert message[..1][..0] == []; }
    assert FirstOption([]) == 0;
    assert !Carries(message[0]) && !Carries(message[1]);
    assert FirstCarrier(message) == 2;
    assert WithSubnet(message, Prefix([10, 0, 0, 0], 8))[..2] == message;
  }

  // The query as sent and the key it is cached under.

  datatype SubnetOptions = SubnetOptions(remove: bool, subnet: Prefix)

  /** The subnet to set: that of the options, else that of the client. */
  function Chosen(client: Prefix, options: SubnetOptions): Prefix {
    if options.subnet.Valid() then options.subnet else client
  }

  function Prepared(client: Prefix, options: SubnetOptions, message: Message): Message
    requires client.WellFormed() && options.subnet.WellFormed()
  {
    if options.remove then Without(message)
    else if Chosen(client, options).Valid() then WithSubnet(message, Chosen(client, options))
    else message
  }

  function KeySubnet(client: Prefix, options: SubnetOptions, message: Message): Prefix {
    if options.remove then NO_PREFIX
    else if Chosen(client, options).Valid() then Chosen(client, options)
    else Carried(message)
  }

  method PrepareExchangeMessage(client: Prefix, options: SubnetOptions, message: Message) returns (result: Message)
    requires client.WellFormed() && options.subnet.WellFormed()
    ensures result == Prepared(client, options, message)
  {
    if options.remove {
      result := RemoveClientSubnet(message);
      return;
    }
    var subnet := options.subnet;
    if !subnet.Valid() {
      subnet := client;
    }
    result := message;
    if subnet.Valid() {
      result := SetClientSubnet(message, subnet);
    }
  }

  method NewKeySubnet(client: Prefix, options: SubnetOptions, message: Message) returns (subnet: Prefix)
    ensures subnet == KeySubnet(client, options, message)
  {
    subnet := NO_PREFIX;
    if !options.remove {
      subnet := options.subnet;
      if !subnet.Valid() {
        subnet := client;
      }
      if !subnet.Valid() {
        subnet := ClientSubnetFromMessage(message);
      }
    }
  }

  /** No subnet if it is to be removed; else that of the options, else that of the client, else what the message carried. */
  lemma PreparedMeaning(client: Prefix, options: SubnetOptions, message: Message)
    requires client.WellFormed() && options.subnet.WellFormed()
    ensures options.remove ==> Carried(Prepared(client, options, message)) == NO_PREFIX && KeySubnet(client, options, message) == NO_PREFIX
    ensures !options.remove && options.subnet.Valid() ==>
      Prepared(client, options, message) == WithSubnet(message, options.subnet) && KeySubnet(client, options, message) == options.subnet
    ensures !options.remove && !options.subnet.Valid() && client.Valid() ==>
      Prepared(client, options, message) == WithSubnet(message, client) && KeySubnet(client, options, message) == client
    ensures !options.remove && !options.subnet.Valid() && !client.Valid() ==>
      Prepared(client, options, message) == message && KeySubnet(client, options, message) == Carried(message)
  {
    GetAfterRemove(message);
  }

  /** The key is the same from the raw and from the prepared message. */
  lemma KeyFromPrepared(client: Prefix, options: SubnetOptions, message: Message)
    requires client.WellFormed() && options.subnet.WellFormed()
    ensures KeySubnet(client, options, Prepared(client, options, message)) == KeySubnet(client, options, message)
  {
  }

  /** The subnet of the key is the one the query carries, exactly when the subnet set is no IPv4 address in disguise. */
  lemma KeyIsCarried(client: Prefix, options: SubnetOptions, message: Message)
    requires client.WellFormed() && options.subnet.WellFormed()
    ensures KeySubnet(client, options, message) == Carried(Prepared(client, options, message)) <==>
      options.remove || !Chosen(client, options).Valid() || !Chosen(client, options).Mapped()
  {
    if options.remove {
      GetAfterRemove(message);
    } else if Chosen(client, options).Valid() {
      GetAfterSet(message, Chosen(client, options));
    }
  }
}
