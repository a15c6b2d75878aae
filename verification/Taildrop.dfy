/** Receiving the files of a Taildrop send from one stream of messages. */
module Taildrop {
  import opened Wrappers

  /** A client message. Anything but a chunk or an end of file is out of place here. */
  datatype Message = Chunk(data: seq<byte>) | FileDone | OutOfPlace

  const ACK_INTERVAL := 1024 * 1024

  /** The first file of a stream: all chunks up to the first end of file, and what follows. */
  function FirstFile(stream: seq<Message>): Option<(seq<byte>, seq<Message>)> {
    if stream == [] then None
    else
      match stream[0]
      case FileDone => Some(([], stream[1..]))
      case OutOfPlace => None
      case Chunk(data) =>
        var rest := FirstFile(stream[1..]);
        if rest.None? then None else Some((data + rest.value.0, rest.value.1))
  }

  /** The first n files of a stream, and what follows. */
  function Files(stream: seq<Message>, n: nat): Option<(seq<seq<byte>>, seq<Message>)>
    decreases n
  {
    if n == 0 then Some(([], stream))
    else
      var first := FirstFile(stream);
      if first.None? then None
      else
        var rest := Files(first.value.1, n - 1);
        if rest.None? then None else Some(([first.value.0] + rest.value.0, rest.value.1))
  }

  function Total(files: seq<seq<byte>>): nat {
    if files == [] then 0 else |files[0]| + Total(files[1..])
  }

  lemma {:induction false} TotalAppend(files: seq<seq<byte>>, file: seq<byte>)
    ensures Total(files + [file]) == Total(files) + |file|
  {
    if files != [] {
      assert (files + [file])[1..] == files[1..] + [file];
      TotalAppend(files[1..], file);
    } else {
      assert ([file])[1..] == [] && files + [file] == [file];
    }
  }

  /** Reading one more file. */
  lemma {:induction false} FilesAppend(stream: seq<Message>, n: nat)
    requires Files(stream, n).Some? && FirstFile(Files(stream, n).value.1).Some?
    ensures
      var (files, rest) := Files(stream, n).value;
      var (file, after) := FirstFile(rest).value;
      Files(stream, n + 1) == Some((files + [file], after))
    decreases n
  {
    if n == 0 {
      var (file, after) := FirstFile(stream).value;
      assert Files(after, 0) == Some(([], after));
      assert [file] + [] == [] + [file];
    } else {
      var first := FirstFile(stream).value;
      FilesAppend(first.1, n - 1);
      var (files, rest) := Files(first.1, n - 1).value;
      var (file, after) := FirstFile(rest).value;
      assert Files(first.1, n) == Some((files + [file], after));
      assert ([first.0] + files) + [file] == [first.0] + (files + [file]);
    }
  }

  datatype ReadResult = Read(bytes: seq<byte>) | EndOfFile | Broken

  predicate SizeFits(declared: int, received: nat) {
    declared >= 0 ==> received == declared
  }

  /** The bytes taken are exactly the first file of the stream, and of the declared size. */
  predicate Whole(stream: seq<Message>, taken: seq<byte>, declared: int) {
    var file := FirstFile(stream);
    file.Some? && file.value.0 == taken && SizeFits(declared, |taken|)
  }

  class ChunkReader {
    /** What the client has sent and is not yet taken from the stream. */
    var stream: seq<Message>
    var buffer: seq<byte>
    var fileDone: bool
    var fileReceived: nat
    var received: nat
    var acknowledged: nat
    var reports: seq<nat>

    /** The stream when the current file began, and the bytes handed out since. */
    ghost var fileStart: seq<Message>
    ghost var delivered: seq<byte>

    /** Handed-out bytes, buffer and remaining chunks make up the file. */
    ghost predicate Valid()
      reads this
    {
      && fileReceived == |delivered|
      && acknowledged <= received < acknowledged + ACK_INTERVAL
      && acknowledged == (if reports == [] then 0 else reports[|reports| - 1])
      && FirstFile(fileStart) ==
           if fileDone then Some((delivered + buffer, stream))
           else if FirstFile(stream).None? then None
           else Some((delivered + buffer + FirstFile(stream).value.0, FirstFile(stream).value.1))
    }

    constructor (stream: seq<Message>)
      ensures Valid() && this.stream == stream && this.fileStart == stream && buffer == [] && received == 0 && reports == []
    {
      assert FirstFile(stream).Some? ==> [] + [] + FirstFile(stream).value.0 == FirstFile(stream).value.0;
      this.stream, fileStart := stream, stream;
      buffer, delivered, reports := [], [], [];
      fileDone, fileReceived, received, acknowledged := false, 0, 0, 0;
    }

    method BeginFile()
      requires Valid() && buffer == []
      modifies this`fileDone, this`fileReceived, this`fileStart, this`delivered
      ensures Valid() && fileStart == stream && delivered == [] && !fileDone
    {
      assert FirstFile(stream).Some? ==> [] + [] + FirstFile(stream).value.0 == FirstFile(stream).value.0;
      fileDone, fileReceived := false, 0;
      fileStart, delivered := stream, [];
    }

    /** Takes the next message. False: the stream has ended or the message is out of place. */
    method Receive() returns (ok: bool)
      requires Valid() && buffer == [] && !fileDone
      modifies this`stream, this`buffer, this`fileDone
      ensures ok ==> Valid() && |stream| < |old(stream)|
      ensures !ok ==> FirstFile(fileStart).None? && buffer == [] && !fileDone
    {
      if stream == [] {
        return false;
      }
      var message := stream[0];
      assert FirstFile(stream) == FirstFile([message] + stream[1..]) by { assert stream == [message] + stream[1..]; }
      stream := stream[1..];
      match message
      case Chunk(data) =>
        buffer := data;
        assert FirstFile(stream).Some? ==> delivered + data + FirstFile(stream).value.0 == delivered + [] + (data + FirstFile(stream).value.0);
        return true;
      case FileDone =>
        fileDone := true;
        assert delivered + [] == delivered;
        return true;
      case OutOfPlace =>
        return false;
    }

    /** Takes messages until there are bytes to hand out. Otherwise says why there are none. */
    method Refill() returns (failure: Option<ReadResult>)
      requires Valid()
      modifies this`stream, this`buffer, this`fileDone
      ensures failure == Some(Broken) || Valid()
      ensures failure.None? ==> buffer != []
      ensures failure.Some? ==> failure.value == (if fileDone then EndOfFile else Broken) && buffer == []
      ensures failure == Some(Broken) ==> FirstFile(fileStart).None?
    {
      while |buffer| == 0
        invariant Valid()
        decreases |stream|
      {
        if fileDone {
          return Some(EndOfFile);
        }
        var ok := Receive();
        if !ok {
          return Some(Broken);
        }
      }
      return None;
    }

    /** Hands out at most `capacity` bytes of the file. */
    method ReadBytes(capacity: nat) returns (result: ReadResult)
      requires Valid()
      modifies this`stream, this`buffer, this`fileDone, this`fileReceived, this`received, this`acknowledged, this`reports, this`delivered
      ensures !result.Broken? ==> Valid()
      ensures !result.Read? ==> delivered == old(delivered) && received == old(received) && reports == old(reports)
      ensures result.Broken? ==> FirstFile(fileStart).None?
      ensures result.EndOfFile? ==> fileDone && buffer == []
      ensures result.Read? ==> |result.bytes| <= capacity && (capacity > 0 ==> result.bytes != [])
      ensures result.Read? ==> delivered == old(delivered) + result.bytes && received == old(received) + |result.bytes|
      ensures received - acknowledged < 1_048_576
      ensures reports == if received - old(acknowledged) >= 1_048_576 then old(reports) + [received] else old(reports)
    {
      var failure := Refill();
      if failure.Some? {
        return failure.value;
      }
      var n := if capacity < |buffer| then capacity else |buffer|;
      var bytes := buffer[..n];
      assert delivered + buffer == (delivered + bytes) + buffer[n..];
      buffer := buffer[n..];
      fileReceived, received := fileReceived + n, received + n;
      delivered := delivered + bytes;
      if received - acknowledged >= ACK_INTERVAL {
        acknowledged := received;
        reports := reports + [received];
      }
      return Read(bytes);
    }

    /** Checks that the whole file was taken and has its declared size. */
    method FinishFile(declared: int) returns (ok: bool)
      requires Valid()
      modifies this`stream, this`buffer, this`fileDone
      ensures ok <==> Whole(fileStart, delivered, declared)
      ensures ok ==> Valid() && buffer == [] && FirstFile(fileStart).value.1 == stream
    {
      while !fileDone
        invariant Valid()
        decreases |stream|
      {
        if |buffer| > 0 {
          return false;
        }
        var taken := Receive();
        if !taken {
          return false;
        }
      }
      if |buffer| > 0 {
        return false;
      }
      assert delivered + buffer == delivered;
      if declared >= 0 && fileReceived != declared {
        return false;
      }
      return true;
    }

    /** One file: its provider makes any number of reads of any sizes, and may stop before the end of the file. */
    method SendFile(sizes: seq<nat>, declared: int) returns (ok: bool, taken: seq<byte>)
      requires Valid() && buffer == []
      modifies this
      ensures ok <==> Whole(old(stream), taken, declared)
      ensures ok ==> Valid() && buffer == [] && FirstFile(old(stream)).value.1 == stream
      ensures received == old(received) + |taken|
      ensures received - acknowledged < 1_048_576
    {
      BeginFile();
      taken := [];
      for k := 0 to |sizes|
        invariant Valid() && fileStart == old(stream) && taken == delivered && received == old(received) + |taken|
      {
        var result := ReadBytes(sizes[k]);
        match result
        case Broken =>
          return false, taken;
        case EndOfFile =>
          break;
        case Read(bytes) =>
          taken := taken + bytes;
      }
      ok := FinishFile(declared);
    }
  }

  /** What the client declares of a file, and the reads its provider makes. */
  datatype Job = Job(declared: int, sizes: seq<nat>)

  /**
   Sends several files. Success is exactly that every provider took the whole of its file and the sizes fit; file i
   is then the i-th file of the stream. The counts add up in every case.
   */
  method SendFiles(stream: seq<Message>, jobs: seq<Job>) returns (ok: bool, files: seq<seq<byte>>, last: seq<byte>, received: nat)
    ensures |files| <= |jobs| && Files(stream, |files|).Some? && Files(stream, |files|).value.0 == files
    ensures forall i :: 0 <= i < |files| ==> jobs[i].declared < 0 || |files[i]| == jobs[i].declared
    ensures ok <==> |files| == |jobs|
    ensures !ok ==>
      var file, declared := FirstFile(Files(stream, |files|).value.1), jobs[|files|].declared;
      file.None? || file.value.0 != last || (declared >= 0 && |last| != declared)
    ensures received == Total(files) + |last|
  {
    var reader := new ChunkReader(stream);
    files := [];
    for i := 0 to |jobs|
      invariant fresh(reader) && reader.Valid() && reader.buffer == [] && |files| == i
      invariant Files(stream, i) == Some((files, reader.stream))
      invariant forall j :: 0 <= j < i ==> SizeFits(jobs[j].declared, |files[j]|)
      invariant reader.received == Total(files)
    {
      var sent, taken := reader.SendFile(jobs[i].sizes, jobs[i].declared);
      if !sent {
        return false, files, taken, reader.received;
      }
      FilesAppend(stream, i);
      TotalAppend(files, taken);
      files := files + [taken];
    }
    return true, files, [], reader.received;
  }
}
