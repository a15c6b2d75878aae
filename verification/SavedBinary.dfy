/** The stored form of a downloaded rule set: a version byte, then length-prefixed fields and a time in seconds. */
module SavedBinary {
  import opened Wrappers

  /** Times are whole seconds in a signed 64-bit integer. */
  predicate IsInt64(t: int) {
    -0x8000_0000_0000_0000 <= t < 0x8000_0000_0000_0000
  }

  const TWO_64 := 0x1_0000_0000_0000_0000

  datatype Fields = Fields(content: seq<byte>, lastUpdated: int, etag: seq<byte>, urlHash: seq<byte>)

  /** What can be stored: lengths fit in 64 bits, and so does the time. */
  predicate Storable(v: Fields) {
    |v.content| < TWO_64 && |v.etag| < TWO_64 && |v.urlHash| < TWO_64 && IsInt64(v.lastUpdated)
  }

  // ---------------------------------------------------------------- variable-length integers

  function Uvarint(n: nat): seq<byte> {
    if n < 128 then [n] else [n % 128 + 128] + Uvarint(n / 128)
  }

  /** One more than the largest value that fits after i bytes. */
  function Limit(i: nat): nat
    requires i <= 9
    decreases 9 - i
  {
    if i == 9 then 2 else 128 * Limit(i + 1)
  }

  /** Reads an integer whose first i bytes are already read. At most ten bytes make up an integer. */
  function ReadUvarintFrom(data: seq<byte>, i: nat): Option<(nat, seq<byte>)> {
    if i >= 10 || data == [] then None
    else if data[0] < 128 then (if i == 9 && data[0] > 1 then None else Some((data[0], data[1..])))
    else
      var rest := ReadUvarintFrom(data[1..], i + 1);
      if rest.None? then None else Some((data[0] - 128 + 128 * rest.value.0, rest.value.1))
  }

  function ReadUvarint(data: seq<byte>): Option<(nat, seq<byte>)> {
    ReadUvarintFrom(data, 0)
  }

  lemma {:induction false} UvarintRoundTrip(n: nat, i: nat, tail: seq<byte>)
    requires i <= 9 && n < Limit(i)
    ensures ReadUvarintFrom(Uvarint(n) + tail, i) == Some((n, tail))
  {
    if n >= 128 {
      assert (Uvarint(n) + tail)[1..] == Uvarint(n / 128) + tail;
      UvarintRoundTrip(n / 128, i + 1, tail);
    }
  }

  lemma {:induction false} UvarintPrefix(n: nat, i: nat, k: nat)
    requires k < |Uvarint(n)|
    ensures ReadUvarintFrom(Uvarint(n)[..k], i).None?
  {
    if k > 0 && n >= 128 {
      assert Uvarint(n)[..k][1..] == Uvarint(n / 128)[..k - 1];
      UvarintPrefix(n / 128, i + 1, k - 1);
    }
  }

  lemma LimitIsTwo64()
    ensures Limit(0) == TWO_64
  {
    assert Limit(8) == 0x100;
    assert Limit(7) == 0x8000;
    assert Limit(6) == 0x40_0000;
    assert Limit(5) == 0x2000_0000;
    assert Limit(4) == 0x10_0000_0000;
    assert Limit(3) == 0x800_0000_0000;
    assert Limit(2) == 0x4_0000_0000_0000;
    assert Limit(1) == 0x200_0000_0000_0000;
  }

  /** The value of seven-bit groups, the lowest first. */
  function Groups(b: seq<byte>): nat {
    if b == [] then 0 else b[0] % 128 + 128 * Groups(b[1..])
  }

  /** All bytes but the last have the high bit, and the last is not idle. */
  predicate Chained(b: seq<byte>) {
    && |b| > 0 && b[|b| - 1] < 128 && (|b| > 1 ==> b[|b| - 1] != 0)
    && forall k :: 0 <= k < |b| - 1 ==> b[k] >= 128
  }

  lemma {:induction false} ChainMore(first: byte, b: seq<byte>)
    requires Chained(b) && first >= 128 && (|b| == 1 ==> b[0] != 0)
    ensures Chained([first] + b) && Groups([first] + b) == first - 128 + 128 * Groups(b)
  {
    assert ([first] + b)[1..] == b;
  }

  /** Seven bits a byte, the lowest first, chained by the high bit. */
  lemma {:induction false} UvarintLayout(n: nat)
    ensures Chained(Uvarint(n)) && Groups(Uvarint(n)) == n && (n > 0 ==> Uvarint(n) != [0])
  {
    if n >= 128 {
      UvarintLayout(n / 128);
      ChainMore(n % 128 + 128, Uvarint(n / 128));
    } else {
      assert [n][1..] == [];
    }
  }

  // ---------------------------------------------------------------- length-prefixed bytes

  function Blob(b: seq<byte>): seq<byte> {
    Uvarint(|b|) + b
  }

  function ReadBlob(data: seq<byte>): Option<(seq<byte>, seq<byte>)> {
    var length := ReadUvarint(data);
    if length.None? || length.value.0 > |length.value.1| then None
    else Some((length.value.1[..length.value.0], length.value.1[length.value.0..]))
  }

  lemma BlobRoundTrip(b: seq<byte>, tail: seq<byte>)
    requires |b| < TWO_64
    ensures ReadBlob(Blob(b) + tail) == Some((b, tail))
  {
    LimitIsTwo64();
    UvarintRoundTrip(|b|, 0, b + tail);
    assert Blob(b) + tail == Uvarint(|b|) + (b + tail);
  }

  lemma BlobPrefix(b: seq<byte>, k: nat)
    requires |b| < TWO_64 && k < |Blob(b)|
    ensures ReadBlob(Blob(b)[..k]).None?
  {
    var head := Uvarint(|b|);
    if k < |head| {
      assert Blob(b)[..k] == head[..k];
      UvarintPrefix(|b|, 0, k);
    } else {
      assert Blob(b)[..k] == head + b[..k - |head|];
      LimitIsTwo64();
      UvarintRoundTrip(|b|, 0, b[..k - |head|]);
    }
  }

  // ---------------------------------------------------------------- big-endian seconds

  function BigEndian(u: nat, width: nat): seq<byte> {
    if width == 0 then [] else BigEndian(u / 256, width - 1) + [u % 256]
  }

  function FromBigEndian(b: seq<byte>): nat {
    if b == [] then 0 else FromBigEndian(b[..|b| - 1]) * 256 + b[|b| - 1]
  }

  function Power256(width: nat): nat {
    if width == 0 then 1 else 256 * Power256(width - 1)
  }

  lemma {:induction false} BigEndianRoundTrip(u: nat, width: nat)
    requires u < Power256(width)
    ensures |BigEndian(u, width)| == width && FromBigEndian(BigEndian(u, width)) == u
  {
    if width > 0 {
      BigEndianRoundTrip(u / 256, width - 1);
      assert BigEndian(u, width)[..width - 1] == BigEndian(u / 256, width - 1);
    }
  }

  function Seconds(t: int): seq<byte>
    requires IsInt64(t)
  {
    BigEndian(if t < 0 then t + TWO_64 else t, 8)
  }

  function ReadSeconds(data: seq<byte>): Option<(int, seq<byte>)> {
    if |data| < 8 then None
    else
      var u := FromBigEndian(data[..8]);
      Some((if u < 0x8000_0000_0000_0000 then u else u - TWO_64, data[8..]))
  }

  lemma Power256Is64()
    ensures Power256(8) == TWO_64
  {
    assert Power256(2) == 0x1_0000;
    assert Power256(4) == 0x1_0000_0000;
    assert Power256(6) == 0x1_0000_0000_0000;
  }

  lemma SecondsRoundTrip(t: int, tail: seq<byte>)
    requires IsInt64(t)
    ensures |Seconds(t)| == 8 && ReadSeconds(Seconds(t) + tail) == Some((t, tail))
  {
    Power256Is64();
    BigEndianRoundTrip(if t < 0 then t + TWO_64 else t, 8);
    assert (Seconds(t) + tail)[..8] == Seconds(t) && (Seconds(t) + tail)[8..] == tail;
  }

  // ---------------------------------------------------------------- the whole record

  function Encode(v: Fields): seq<byte>
    requires IsInt64(v.lastUpdated)
  {
    [2] + (Blob(v.content) + (Seconds(v.lastUpdated) + (Blob(v.etag) + Blob(v.urlHash))))
  }

  /**
   Decodes into a record that may already hold values. Fields are set one after the other, so a failure leaves the
   earlier ones set; a version below 2 leaves the hash alone.
   */
  function Load(v: Fields, data: seq<byte>): (Fields, bool) {
    if data == [] then (v, false) else LoadContent(v, data[0], data[1..])
  }

  function LoadContent(v: Fields, version: byte, data: seq<byte>): (Fields, bool) {
    var content := ReadBlob(data);
    if content.None? then (v, false) else LoadTime(v.(content := content.value.0), version, content.value.1)
  }

  function LoadTime(v: Fields, version: byte, data: seq<byte>): (Fields, bool) {
    var time := ReadSeconds(data);
    if time.None? then (v, false) else LoadEtag(v.(lastUpdated := time.value.0), version, time.value.1)
  }

  function LoadEtag(v: Fields, version: byte, data: seq<byte>): (Fields, bool) {
    var etag := ReadBlob(data);
    if etag.None? then (v, false)
    else if version < 2 then (v.(etag := etag.value.0), true)
    else LoadHash(v.(etag := etag.value.0), etag.value.1)
  }

  function LoadHash(v: Fields, data: seq<byte>): (Fields, bool) {
    var hash := ReadBlob(data);
    if hash.None? then (v, false) else (v.(urlHash := hash.value.0), true)
  }

  /** Decoding an encoded record gives it back, whatever follows and whatever was in the record before. */
  lemma RoundTrip(v: Fields, before: Fields, tail: seq<byte>)
    requires Storable(v)
    ensures Load(before, Encode(v) + tail) == (v, true)
  {
    var afterEtag := Blob(v.urlHash) + tail;
    var afterTime := Blob(v.etag) + afterEtag;
    var afterContent := Seconds(v.lastUpdated) + afterTime;
    assert (Encode(v) + tail)[1..] == Blob(v.content) + afterContent;
    BlobRoundTrip(v.content, afterContent);
    SecondsRoundTrip(v.lastUpdated, afterTime);
    BlobRoundTrip(v.etag, afterEtag);
    BlobRoundTrip(v.urlHash, tail);
  }

  /** A record of another version: below 2 it has no hash, and what was there stays; from 2 on it is read alike. */
  lemma OtherVersions(version: byte, v: Fields, before: Fields, tail: seq<byte>)
    requires Storable(v)
    ensures
      var head := [version] + (Blob(v.content) + (Seconds(v.lastUpdated) + Blob(v.etag)));
      && (version < 2 ==> Load(before, head + tail) == (Fields(v.content, v.lastUpdated, v.etag, before.urlHash), true))
      && (version >= 2 ==> Load(before, head + (Blob(v.urlHash) + tail)) == (v, true))
  {
    var head := [version] + (Blob(v.content) + (Seconds(v.lastUpdated) + Blob(v.etag)));
    forall rest: seq<byte> | true
      ensures Load(before, head + rest) == LoadEtag(before.(content := v.content, lastUpdated := v.lastUpdated), version, Blob(v.etag) + rest)
    {
      assert (head + rest)[1..] == Blob(v.content) + (Seconds(v.lastUpdated) + (Blob(v.etag) + rest));
      BlobRoundTrip(v.content, Seconds(v.lastUpdated) + (Blob(v.etag) + rest));
      SecondsRoundTrip(v.lastUpdated, Blob(v.etag) + rest);
    }
    BlobRoundTrip(v.etag, tail);
    BlobRoundTrip(v.etag, Blob(v.urlHash) + tail);
    BlobRoundTrip(v.urlHash, tail);
  }

  /** The bytes of a small record: version 2, lengths before contents, the time with its highest byte first. */
  lemma {:induction false} FormatExample()
    ensures
      var data := Encode(Fields([7], 258, [], [9, 8]));
      data[..3] == [2, 1, 7] && data[3..11] == [0, 0, 0, 0, 0, 0, 1, 2] && data[11..] == [0, 2, 9, 8]
  {
    SmallSeconds();
    SmallBlobs();
    Pieces([2, 1, 7], Seconds(258), [0, 2, 9, 8], Encode(Fields([7], 258, [], [9, 8])));
  }

  lemma Pieces(a: seq<byte>, b: seq<byte>, c: seq<byte>, all: seq<byte>)
    requires all == a + b + c
    ensures all[..|a|] == a && all[|a|..|a| + |b|] == b && all[|a| + |b|..] == c
  {
  }

  lemma SmallBlobs()
    ensures Blob([7]) == [1, 7] && Blob([]) == [0] && Blob([9, 8]) == [2, 9, 8]
  {
  }

  lemma LongLength()
    ensures Uvarint(300) == [172, 2]
  {
    assert 300 % 128 + 128 == 172 && 300 / 128 == 2;
    assert Uvarint(2) == [2];
  }

  lemma SmallSeconds()
    ensures Seconds(258) == [0, 0, 0, 0, 0, 0, 1, 2]
  {
    assert BigEndian(0, 2) == [0, 0];
    assert BigEndian(0, 4) == BigEndian(0, 3) + [0] && BigEndian(0, 3) == BigEndian(0, 2) + [0];
    assert BigEndian(0, 6) == BigEndian(0, 5) + [0] && BigEndian(0, 5) == BigEndian(0, 4) + [0];
    assert BigEndian(258, 8) == BigEndian(1, 7) + [2] && BigEndian(1, 7) == BigEndian(0, 6) + [1];
  }

  /** Negative times are in two's complement. */
  lemma {:induction false} AllOnes(width: nat)
    ensures Power256(width) >= 1
    ensures BigEndian(Power256(width) - 1, width) == seq(width, _ => 255)
  {
    if width > 0 {
      AllOnes(width - 1);
      assert (Power256(width) - 1) / 256 == Power256(width - 1) - 1 && (Power256(width) - 1) % 256 == 255;
    }
  }

  lemma MinusOne()
    ensures Seconds(-1) == [255, 255, 255, 255, 255, 255, 255, 255]
  {
    Power256Is64();
    AllOnes(8);
  }

  /** A cut in the hash, in the etag, in the time or in the content is noticed. */
  lemma CutHash(v: Fields, before: Fields, k: nat)
    requires Storable(v) && k < |Blob(v.urlHash)|
    ensures !LoadHash(before, Blob(v.urlHash)[..k]).1
  {
    BlobPrefix(v.urlHash, k);
  }

  lemma CutEtag(v: Fields, before: Fields, k: nat)
    requires Storable(v) && k < |Blob(v.etag) + Blob(v.urlHash)|
    ensures !LoadEtag(before, 2, (Blob(v.etag) + Blob(v.urlHash))[..k]).1
  {
    var head := Blob(v.etag);
    if k < |head| {
      assert (head + Blob(v.urlHash))[..k] == head[..k];
      BlobPrefix(v.etag, k);
    } else {
      assert (head + Blob(v.urlHash))[..k] == head + Blob(v.urlHash)[..k - |head|];
      BlobRoundTrip(v.etag, Blob(v.urlHash)[..k - |head|]);
      CutHash(v, before.(etag := v.etag), k - |head|);
    }
  }

  lemma CutTime(v: Fields, before: Fields, k: nat)
    requires Storable(v) && k < |Seconds(v.lastUpdated) + (Blob(v.etag) + Blob(v.urlHash))|
    ensures !LoadTime(before, 2, (Seconds(v.lastUpdated) + (Blob(v.etag) + Blob(v.urlHash)))[..k]).1
  {
    var head, rest := Seconds(v.lastUpdated), Blob(v.etag) + Blob(v.urlHash);
    SecondsRoundTrip(v.lastUpdated, []);
    if k >= 8 {
      assert (head + rest)[..k] == head + rest[..k - 8];
      SecondsRoundTrip(v.lastUpdated, rest[..k - 8]);
      CutEtag(v, before.(lastUpdated := v.lastUpdated), k - 8);
    }
  }

  lemma CutContent(v: Fields, before: Fields, k: nat)
    requires Storable(v) && k < |Encode(v)| - 1
    ensures !LoadContent(before, 2, Encode(v)[1..][..k]).1
  {
    var head, rest := Blob(v.content), Seconds(v.lastUpdated) + (Blob(v.etag) + Blob(v.urlHash));
    assert Encode(v)[1..] == head + rest;
    if k < |head| {
      assert (head + rest)[..k] == head[..k];
      BlobPrefix(v.content, k);
    } else {
      assert (head + rest)[..k] == head + rest[..k - |head|];
      BlobRoundTrip(v.content, rest[..k - |head|]);
      CutTime(v, before.(content := v.content), k - |head|);
    }
  }

  /** No strict prefix of an encoded record decodes. */
  lemma PrefixIsRejected(v: Fields, before: Fields, k: nat)
    requires Storable(v) && k < |Encode(v)|
    ensures !Load(before, Encode(v)[..k]).1
  {
    if k > 0 {
      CutContent(v, before, k - 1);
      CutAfterVersion(Encode(v), k);
    }
  }

  lemma CutAfterVersion(data: seq<byte>, k: nat)
    requires 0 < k <= |data|
    ensures data[..k][1..] == data[1..][..k - 1] && data[..k][0] == data[0]
  {
  }

  /** Encodings are distinguishable: two records with the same encoding are the same. */
  lemma EncodeIsInjective(v: Fields, w: Fields)
    requires Storable(v) && Storable(w) && Encode(v) == Encode(w)
    ensures v == w
  {
    RoundTrip(v, v, []);
    RoundTrip(w, v, []);
    assert Encode(v) + [] == Encode(v) && Encode(w) + [] == Encode(w);
  }

  // ---------------------------------------------------------------- the record object

  /** Appends an integer to a buffer, seven bits at a time. */
  method WriteUvarint(buffer: seq<byte>, n: nat) returns (longer: seq<byte>)
    ensures longer == buffer + Uvarint(n)
  {
    longer := buffer;
    var left := n;
    while left >= 128
      invariant 0 <= left && longer + Uvarint(left) == buffer + Uvarint(n)
    {
      longer := longer + [left % 128 + 128];
      left := left / 128;
    }
    longer := longer + [left];
  }

  /** Reads an integer from position `at`. The position never passes the end of the input. */
  method ReadUvarintAt(data: seq<byte>, at: nat) returns (result: Option<(nat, nat)>)
    requires at <= |data|
    ensures result.Some? <==> ReadUvarint(data[at..]).Some?
    ensures result.Some? ==> at < result.value.1 <= |data| && ReadUvarint(data[at..]) == Some((result.value.0, data[result.value.1..]))
  {
    var value, scale, next, i := 0, 1, at, 0;
    while i < 10
      invariant 0 <= i <= 10 && at + i == next <= |data| && 0 <= value && scale > 0
      invariant ReadUvarint(data[at..]).Some? == ReadUvarintFrom(data[next..], i).Some?
      invariant ReadUvarintFrom(data[next..], i).Some? ==>
        && ReadUvarint(data[at..]).value.0 == value + scale * ReadUvarintFrom(data[next..], i).value.0
        && ReadUvarint(data[at..]).value.1 == ReadUvarintFrom(data[next..], i).value.1
    {
      if next == |data| {
        return None;
      }
      var b := data[next];
      assert data[next..][1..] == data[next + 1..];
      if b < 128 {
        if i == 9 && b > 1 {
          return None;
        }
        return Some((value + scale * b, next + 1));
      }
      if ReadUvarintFrom(data[next..], i).Some? {
        UvarintStep(data[next..], i, value, scale);
      }
      value := value + scale * (b - 128);
      scale := scale * 128;
      next, i := next + 1, i + 1;
    }
    return None;
  }

  lemma UvarintStep(data: seq<byte>, i: nat, value: int, scale: int)
    requires data != [] && data[0] >= 128 && i < 10 && ReadUvarintFrom(data, i).Some?
    ensures value + scale * ReadUvarintFrom(data, i).value.0
         == value + scale * (data[0] - 128) + scale * 128 * ReadUvarintFrom(data[1..], i + 1).value.0
  {
  }

  /** Reads length-prefixed bytes from position `at`. */
  method ReadBlobAt(data: seq<byte>, at: nat) returns (result: Option<(seq<byte>, nat)>)
    requires at <= |data|
    ensures result.Some? <==> ReadBlob(data[at..]).Some?
    ensures result.Some? ==> at < result.value.1 <= |data| && ReadBlob(data[at..]) == Some((result.value.0, data[result.value.1..]))
  {
    var length := ReadUvarintAt(data, at);
    if length.None? {
      return None;
    }
    var (n, start) := length.value;
    if n > |data| - start {
      return None;
    }
    assert data[start..][..n] == data[start..start + n] && data[start..][n..] == data[start + n..];
    return Some((data[start..start + n], start + n));
  }

  class Record {
    var content: seq<byte>
    var lastUpdated: int
    var etag: seq<byte>
    var urlHash: seq<byte>

    function View(): Fields
      reads this
    {
      Fields(content, lastUpdated, etag, urlHash)
    }

    constructor ()
      ensures View() == Fields([], 0, [], [])
    {
      content, lastUpdated, etag, urlHash := [], 0, [], [];
    }

    method MarshalBinary() returns (data: seq<byte>)
      requires IsInt64(lastUpdated)
      ensures data == Encode(View())
    {
      data := [2];
      data := WriteUvarint(data, |content|);
      data := data + content;
      data := data + Seconds(lastUpdated);
      data := WriteUvarint(data, |etag|);
      data := data + etag;
      data := WriteUvarint(data, |urlHash|);
      data := data + urlHash;
    }

    /** Sets the fields from `data`, one after the other. */
    method UnmarshalBinary(data: seq<byte>) returns (ok: bool)
      modifies this
      ensures (View(), ok) == Load(old(View()), data)
    {
      if data == [] {
        return false;
      }
      var version := data[0];
      var storedContent := ReadBlobAt(data, 1);
      if storedContent.None? {
        return false;
      }
      content := storedContent.value.0;
      var at := storedContent.value.1;
      var time := ReadSeconds(data[at..]);
      if time.None? {
        return false;
      }
      lastUpdated := time.value.0;
      assert data[at..][8..] == data[at + 8..];
      var storedEtag := ReadBlobAt(data, at + 8);
      if storedEtag.None? {
        return false;
      }
      etag := storedEtag.value.0;
      if version < 2 {
        return true;
      }
      var storedHash := ReadBlobAt(data, storedEtag.value.1);
      if storedHash.None? {
        return false;
      }
      urlHash := storedHash.value.0;
      return true;
    }
  }
}
