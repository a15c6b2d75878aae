/** The key of the DNS cache, and the name it has in the persistent store. */
module CacheKey {
  import opened Wrappers

  /** A question: name, type and class. */
  datatype Question = Question(name: int, qtype: int, qclass: int)

  /** `subnet` is the client subnet in its text form, if there is a valid one. */
  datatype Key = Key(question: Question, tag: seq<byte>, subnet: Option<seq<byte>>, environment: nat)

  // ---------------------------------------------------------------- numbers in base 36

  function Digit(d: nat): byte
    requires d < 36
  {
    if d < 10 then 48 + d else 97 + d - 10
  }

  function DigitValue(b: byte): int {
    if b < 97 then b - 48 else b - 97 + 10
  }

  function Base36(n: nat): (text: seq<byte>)
    ensures |text| > 0 && Plain(text)
  {
    if n < 36 then [Digit(n)] else Base36(n / 36) + [Digit(n % 36)]
  }

  function Value(text: seq<byte>): int {
    if text == [] then 0 else 36 * Value(text[..|text| - 1]) + DigitValue(text[|text| - 1])
  }

  lemma {:induction false} Base36RoundTrip(n: nat)
    ensures Value(Base36(n)) == n
  {
    var text := Base36(n);
    if n >= 36 {
      Base36RoundTrip(n / 36);
      assert text[..|text| - 1] == Base36(n / 36);
    } else {
      assert text[..0] == [];
    }
  }

  // ---------------------------------------------------------------- the persistent name

  /** Free of the two separators. */
  predicate Plain(text: seq<byte>) {
    forall i :: 0 <= i < |text| ==> text[i] >= 2
  }

  predicate PlainKey(key: Key) {
    Plain(key.tag) && (key.subnet.Some? ==> Plain(key.subnet.value))
  }

  function SubnetPart(subnet: Option<seq<byte>>): seq<byte> {
    if subnet.Some? then [0] + subnet.value else []
  }

  function EnvironmentPart(environment: nat): seq<byte> {
    if environment != 0 then [1] + Base36(environment) else []
  }

  function Parts(subnet: Option<seq<byte>>, environment: nat): seq<byte> {
    SubnetPart(subnet) + EnvironmentPart(environment)
  }

  function PersistentName(key: Key): seq<byte> {
    key.tag + Parts(key.subnet, key.environment)
  }

  /** Reads a name back: text up to a separator, then what the separator announces. */
  function Head(name: seq<byte>): (head: seq<byte>)
    ensures |head| <= |name|
  {
    if name == [] || name[0] < 2 then [] else [name[0]] + Head(name[1..])
  }

  function ParseEnvironment(rest: seq<byte>): int {
    if rest == [] then 0 else Value(rest[1..])
  }

  lemma {:induction false} HeadOf(text: seq<byte>, rest: seq<byte>)
    requires Plain(text) && (rest == [] || rest[0] < 2)
    ensures Head(text + rest) == text && (text + rest)[|text|..] == rest
  {
    if text == [] {
      assert text + rest == rest;
    } else {
      assert text[0] >= 2;
      assert (text + rest)[1..] == text[1..] + rest;
      HeadOf(text[1..], rest);
    }
  }

  lemma EnvironmentRoundTrip(environment: nat)
    ensures ParseEnvironment(EnvironmentPart(environment)) == environment
  {
    if environment != 0 {
      Base36RoundTrip(environment);
      assert EnvironmentPart(environment)[1..] == Base36(environment);
    }
  }

  function ParseRest(rest: seq<byte>): (Option<seq<byte>>, int) {
    if rest == [] || rest[0] != 0 then (None, ParseEnvironment(rest))
    else
      var subnet := Head(rest[1..]);
      (Some(subnet), ParseEnvironment(rest[1..][|subnet|..]))
  }

  function ParseName(name: seq<byte>): (seq<byte>, Option<seq<byte>>, int) {
    var tag := Head(name);
    var (subnet, environment) := ParseRest(name[|tag|..]);
    (tag, subnet, environment)
  }

  lemma RestRoundTrip(subnet: Option<seq<byte>>, environment: nat)
    requires subnet.Some? ==> Plain(subnet.value)
    ensures ParseRest(Parts(subnet, environment)) == (subnet, environment)
  {
    EnvironmentRoundTrip(environment);
    if subnet.Some? {
      SubnetRoundTrip(subnet.value, EnvironmentPart(environment));
    } else {
      assert Parts(subnet, environment) == EnvironmentPart(environment);
    }
  }

  lemma SubnetRoundTrip(subnet: seq<byte>, tail: seq<byte>)
    requires Plain(subnet) && (tail == [] || tail[0] < 2)
    ensures ParseRest([0] + subnet + tail) == (Some(subnet), ParseEnvironment(tail))
  {
    assert ([0] + subnet + tail)[1..] == subnet + tail;
    HeadOf(subnet, tail);
  }

  /** The parts of a key can be read back from its name. */
  lemma NameRoundTrip(key: Key)
    requires PlainKey(key)
    ensures ParseName(PersistentName(key)) == (key.tag, key.subnet, key.environment)
  {
    HeadOf(key.tag, Parts(key.subnet, key.environment));
    RestRoundTrip(key.subnet, key.environment);
  }

  /** Distinct keys with the same question have distinct names. */
  lemma NameIsInjective(a: Key, b: Key)
    requires PlainKey(a) && PlainKey(b) && PersistentName(a) == PersistentName(b)
    ensures a.tag == b.tag && a.subnet == b.subnet && a.environment == b.environment
  {
    NameRoundTrip(a);
    NameRoundTrip(b);
  }

  /** A tag with a separator in it can take the name of another key. */
  lemma SeparatorInTag(question: Question)
    ensures
      var a := Key(question, [97], None, 1);
      var b := Key(question, [97, 1, 49], None, 0);
      a != b && PersistentName(a) == PersistentName(b)
  {
    assert Base36(1) == [49];
  }

  /** A name in full: the tag, byte 0 and the subnet, byte 1 and the environment in digits and small letters. */
  lemma NameExample(question: Question)
    ensures PersistentName(Key(question, [97, 98], Some([49, 47, 56]), 71)) == [97, 98, 0, 49, 47, 56, 1, 49, 122]
    ensures PersistentName(Key(question, [97, 98], None, 0)) == [97, 98]
  {
    assert Base36(71) == Base36(1) + [Digit(35)] && Base36(1) == [49];
    assert Parts(Some([49, 47, 56]), 71) == [0, 49, 47, 56] + [1, 49, 122];
  }

  predicate PlainSubnet(subnet: Option<seq<byte>>) {
    subnet.Some? ==> Plain(subnet.value)
  }

  /** The second tag is the first with a subnet, an environment or both written behind it. */
  ghost predicate Extends(a: seq<byte>, b: seq<byte>) {
    exists subnet, environment :: IsSuffixed(a, b, subnet, environment)
  }

  predicate IsSuffixed(a: seq<byte>, b: seq<byte>, subnet: Option<seq<byte>>, environment: nat) {
    PlainSubnet(subnet) && (subnet.Some? || environment != 0) && b == a + Parts(subnet, environment)
  }

  /** The keys of two tags, each with a subnet and an environment, have the same name. */
  predicate SameName(question: Question, a: seq<byte>, s: Option<seq<byte>>, d: nat, b: seq<byte>, t: Option<seq<byte>>, e: nat) {
    PlainSubnet(s) && PlainSubnet(t) && PersistentName(Key(question, a, s, d)) == PersistentName(Key(question, b, t, e))
  }

  /** A separator ends what follows a tag, or stands in front of its second part. */
  lemma CutParts(subnet: Option<seq<byte>>, environment: nat, head: seq<byte>, rest: seq<byte>) returns (s: Option<seq<byte>>, e: nat)
    requires PlainSubnet(subnet) && head != [] && Parts(subnet, environment) == head + rest
    requires rest == [] || rest[0] < 2
    ensures PlainSubnet(s) && (s.Some? || e != 0) && head == Parts(s, e)
  {
    if rest == [] {
      assert head + rest == head;
      s, e := subnet, environment;
    } else {
      assert Parts(subnet, environment)[|head|] == rest[0];
      if |head| != |SubnetPart(subnet)| {
        CutAtSeparator(subnet, environment, |head|);
      }
      assert head == Parts(subnet, environment)[..|head|];
      s, e := subnet, 0;
      assert Parts(subnet, 0) == SubnetPart(subnet);
    }
  }

  /** Behind the first byte, only the separator of the environment is a separator. */
  lemma CutAtSeparator(subnet: Option<seq<byte>>, environment: nat, i: nat)
    requires PlainSubnet(subnet) && 0 < i < |Parts(subnet, environment)| && i != |SubnetPart(subnet)|
    ensures Parts(subnet, environment)[i] >= 2
  {
    var n := |SubnetPart(subnet)|;
    if i < n {
      assert Parts(subnet, environment)[i] == subnet.value[i - 1];
    } else {
      assert Parts(subnet, environment)[i] == Base36(environment)[i - n - 1];
    }
  }

  lemma SplitLonger(a: seq<byte>, left: seq<byte>, b: seq<byte>, right: seq<byte>)
    requires |a| <= |b| && a + left == b + right
    ensures b == a + b[|a|..] && left == b[|a|..] + right
  {
    assert a == (a + left)[..|a|] == b[..|a|];
    assert left == (a + left)[|a|..] == (b + right)[|a|..];
  }

  lemma LongerExtends(a: seq<byte>, s: Option<seq<byte>>, d: nat, b: seq<byte>, t: Option<seq<byte>>, e: nat)
    requires a != b && |a| <= |b| && PlainSubnet(s) && a + Parts(s, d) == b + Parts(t, e)
    ensures Extends(a, b)
  {
    SplitLonger(a, Parts(s, d), b, Parts(t, e));
    var s2, e2 := CutParts(s, d, b[|a|..], Parts(t, e));
    assert IsSuffixed(a, b, s2, e2);
  }

  /** Two tags can come to the same name exactly when one is the other with such parts behind it. */
  lemma TagsCollideIff(question: Question, a: seq<byte>, b: seq<byte>)
    requires a != b
    ensures (exists s, d, t, e :: SameName(question, a, s, d, b, t, e)) <==> Extends(a, b) || Extends(b, a)
  {
    if s, d, t, e :| SameName(question, a, s, d, b, t, e) {
      if |a| <= |b| {
        LongerExtends(a, s, d, b, t, e);
      } else {
        LongerExtends(b, t, e, a, s, d);
      }
    }
    assert Parts(None, 0) == [] && a + [] == a && b + [] == b;
    if Extends(a, b) {
      var s, d :| IsSuffixed(a, b, s, d);
      assert SameName(question, a, s, d, b, None, 0);
    }
    if Extends(b, a) {
      var t, e :| IsSuffixed(b, a, t, e);
      assert SameName(question, a, None, 0, b, t, e);
    }
  }

  /** A key is stored under the environment at the end of the exchange, unless that has changed from a known one. */
  function FinishKey(key: Key, environment: nat): (r: Option<Key>)
    ensures r.Some? <==> key.environment == 0 || key.environment == environment
    ensures r.Some? ==> r.value.environment == environment && r.value.question == key.question && r.value.tag == key.tag && r.value.subnet == key.subnet
  {
    if environment == key.environment || key.environment == 0 then Some(key.(environment := environment)) else None
  }
}
