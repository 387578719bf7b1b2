/**
 * The file helpers of src/file.rs: hash streams a reader through a CRC-32
 * hasher using a caller-supplied byte buffer, and hash_file_contents opens a
 * path and hashes it. The reader is modelled by the script of outcomes its
 * successive reads produce; the filesystem by a table from path to the
 * outcome of opening it.
 */
module File {
  import opened Wrappers
  import Crc32

  type byte = Crc32.byte

  /**
   * A filesystem path: its raw bytes, with the file stem (present when it
   * exists and is valid UTF-8) and the extension that std::path derives
   * from them.
   */
  datatype Path = Path(raw: seq<byte>, stem: Option<seq<byte>>, extension: Option<seq<byte>>)

  datatype IoError = NotFound | OtherIoError

  /**
   * One step of a reader's script: a run of bytes it can deliver (an empty
   * run is end of file), or a failing read.
   */
  datatype ReadStep = Data(bytes: seq<byte>) | Fault

  function Min(a: nat, b: nat): nat {
    if a <= b then a else b
  }

  /**
   * One read into a buffer of capacity cap: at most cap bytes of the first
   * run, whose remainder stays at the head of the script; a fault is
   * consumed and reported; an exhausted script reads as end of file.
   */
  function ReadOnce(script: seq<ReadStep>, cap: nat): (Result<seq<byte>, IoError>, seq<ReadStep>)
  {
    if script == [] then (Success([]), [])
    else match script[0]
      case Fault => (Failure(OtherIoError), script[1..])
      case Data(bytes) =>
        var n := Min(|bytes|, cap);
        (Success(bytes[..n]), if n == |bytes| then script[1..] else [Data(bytes[n..])] + script[1..])
  }

  /** The bytes a script has left to deliver, plus one per step: what each read uses up. */
  function Weight(script: seq<ReadStep>): nat {
    if script == [] then 0
    else (match script[0] case Data(bytes) => |bytes| + 1 case Fault => 1) + Weight(script[1..])
  }

  lemma {:induction false} ReadOnceProgress(script: seq<ReadStep>, cap: nat)
    requires ReadOnce(script, cap).0.Success? && |ReadOnce(script, cap).0.value| > 0
    ensures Weight(ReadOnce(script, cap).1) < Weight(script)
  {
    match script[0]
    case Data(bytes) =>
      var n := Min(|bytes|, cap);
      if n < |bytes| {
        var rest := [Data(bytes[n..])] + script[1..];
        assert rest[0] == Data(bytes[n..]) && rest[1..] == script[1..];
      }
  }

  /**
   * The bytes the loop of hash feeds to the hasher, reading with capacity
   * cap: every successful non-empty read in order, up to the first read that
   * returns 0 bytes or fails.
   */
  function Fed(script: seq<ReadStep>, cap: nat): seq<byte>
    decreases Weight(script)
  {
    var step := ReadOnce(script, cap);
    if step.0.Failure? || |step.0.value| == 0 then []
    else ReadOnceProgress(script, cap); step.0.value + Fed(step.1, cap)
  }

  /** One turn of the loop: a successful non-empty read feeds its bytes and the loop goes on. */
  lemma FedUnfold(script: seq<ReadStep>, cap: nat)
    ensures ReadOnce(script, cap).0.Failure? ==> Fed(script, cap) == []
    ensures ReadOnce(script, cap).0.Success? && |ReadOnce(script, cap).0.value| == 0 ==> Fed(script, cap) == []
    ensures ReadOnce(script, cap).0.Success? && |ReadOnce(script, cap).0.value| > 0 ==>
      Fed(script, cap) == ReadOnce(script, cap).0.value + Fed(ReadOnce(script, cap).1, cap)
  {
  }

  /**
   * The bytes a script delivers independently of buffer size: its runs in
   * order up to the first fault or end of file.
   */
  function Stream(script: seq<ReadStep>): seq<byte>
  {
    if script == [] then []
    else match script[0]
      case Fault => []
      case Data(bytes) => if bytes == [] then [] else bytes + Stream(script[1..])
  }

  /** A read that splits the first run leaves its remainder in front of the same tail. */
  lemma StreamAfterPartialRead(bytes: seq<byte>, tail: seq<ReadStep>, n: nat)
    requires 0 < n < |bytes|
    ensures Stream([Data(bytes)] + tail) == bytes[..n] + Stream([Data(bytes[n..])] + tail)
  {
    var s, t := [Data(bytes)] + tail, [Data(bytes[n..])] + tail;
    assert s[0] == Data(bytes) && s[1..] == tail;
    assert t[0] == Data(bytes[n..]) && t[1..] == tail;
    assert bytes == bytes[..n] + bytes[n..];
  }

  /** Any non-zero buffer size reads the same bytes: the size only changes how they are chunked. */
  lemma {:induction false} FedIgnoresCapacity(script: seq<ReadStep>, cap: nat)
    requires cap > 0
    ensures Fed(script, cap) == Stream(script)
    decreases Weight(script)
  {
    FedUnfold(script, cap);
    if script != [] && script[0].Data? && script[0].bytes != [] {
      var bytes := script[0].bytes;
      var rest := ReadOnce(script, cap).1;
      ReadOnceProgress(script, cap);
      FedIgnoresCapacity(rest, cap);
      var n := Min(|bytes|, cap);
      assert script == [Data(bytes)] + script[1..];
      if n < |bytes| {
        StreamAfterPartialRead(bytes, script[1..], n);
      }
    }
  }

  /** A reader over one non-empty run, with a non-zero buffer, feeds exactly that run. */
  lemma FedOneRun(bytes: seq<byte>, cap: nat)
    requires cap > 0 && bytes != []
    ensures Fed([Data(bytes)], cap) == bytes
  {
    FedIgnoresCapacity([Data(bytes)], cap);
    assert [Data(bytes)][1..] == [];
  }

  /** A zero-length buffer reads nothing: the first read returns 0 bytes or fails. */
  lemma EmptyBufferFeedsNothing(script: seq<ReadStep>)
    ensures Fed(script, 0) == []
  {
  }

  /** The script of runs chunks, in order. */
  function Runs(chunks: seq<seq<byte>>): (s: seq<ReadStep>)
    ensures |s| == |chunks|
    ensures forall i :: 0 <= i < |chunks| ==> s[i] == Data(chunks[i])
  {
    seq(|chunks|, i requires 0 <= i < |chunks| => Data(chunks[i]))
  }

  function Concat(chunks: seq<seq<byte>>): seq<byte> {
    if chunks == [] then [] else chunks[0] + Concat(chunks[1..])
  }

  /**
   * Non-empty runs followed by a fault or end of file deliver exactly their
   * concatenation, in order; whatever follows the stop is never read.
   */
  lemma {:induction false} StreamStopsAtFirstFailure(chunks: seq<seq<byte>>, stop: seq<ReadStep>)
    requires forall i :: 0 <= i < |chunks| ==> chunks[i] != []
    requires stop == [] || stop[0] == Fault || stop[0] == Data([])
    ensures Stream(Runs(chunks) + stop) == Concat(chunks)
  {
    if chunks != [] {
      var s := Runs(chunks) + stop;
      assert s[0] == Data(chunks[0]);
      assert s[1..] == Runs(chunks[1..]) + stop;
      StreamStopsAtFirstFailure(chunks[1..], stop);
    } else {
      assert Runs(chunks) + stop == stop;
    }
  }

  /** A reader whose successive reads follow a script. */
  class Reader {
    var script: seq<ReadStep>

    constructor (script: seq<ReadStep>)
      ensures this.script == script
    {
      this.script := script;
    }

    /** Read::read: fills buf[..n] and reports n, or reports an error. */
    method Read(buf: array<byte>) returns (r: Result<nat, IoError>)
      modifies this, buf
      ensures script == ReadOnce(old(script), buf.Length).1
      ensures ReadOnce(old(script), buf.Length).0.Failure? ==>
        r == Failure(ReadOnce(old(script), buf.Length).0.error) && buf[..] == old(buf[..])
      ensures ReadOnce(old(script), buf.Length).0.Success? ==>
        r.Success? && r.value == |ReadOnce(old(script), buf.Length).0.value| <= buf.Length &&
        buf[..r.value] == ReadOnce(old(script), buf.Length).0.value &&
        buf[r.value..] == old(buf[r.value..])
    {
      var res, rest := ReadOnce(script, buf.Length).0, ReadOnce(script, buf.Length).1;
      script := rest;
      if res.Failure? {
        return Failure(res.error);
      }
      var chunk := res.value;
      for i := 0 to |chunk|
        modifies buf
        invariant buf[..i] == chunk[..i]
        invariant buf[i..] == old(buf[i..])
      {
        buf[i] := chunk[i];
      }
      r := Success(|chunk|);
    }
  }

  /**
   * hash (src/file.rs:8-19): read into the buffer until a read returns 0
   * bytes, feeding each buffer[..n] to the hasher; a failing read ends the
   * loop silently, so the result is always Ok, with the checksum of the
   * bytes read so far.
   */
  method Hash(reader: Reader, buffer: array<byte>) returns (r: Result<bv32, IoError>)
    modifies reader, buffer
    ensures r == Success(Crc32.Checksum(Fed(old(reader.script), buffer.Length)))
  {
    var hasher := Crc32.New();
    ghost var fed: seq<byte> := [];
    while true
      invariant Fed(old(reader.script), buffer.Length) == fed + Fed(reader.script, buffer.Length)
      invariant hasher == Crc32.Update(Crc32.New(), fed)
      decreases Weight(reader.script)
    {
      ghost var before := reader.script;
      FedUnfold(before, buffer.Length);
      var res := reader.Read(buffer);
      if res.Failure? {
        assert fed + [] == fed;
        break;
      }
      var bytesRead := res.value;
      if bytesRead == 0 {
        assert fed + [] == fed;
        break;
      }
      ReadOnceProgress(before, buffer.Length);
      ghost var chunk := buffer[..bytesRead];
      assert Fed(before, buffer.Length) == chunk + Fed(reader.script, buffer.Length);
      assert fed + (chunk + Fed(reader.script, buffer.Length)) == (fed + chunk) + Fed(reader.script, buffer.Length);
      Crc32.UpdateConcat(Crc32.New(), fed, chunk);
      hasher := Crc32.Update(hasher, buffer[..bytesRead]);
      fed := fed + chunk;
    }
    r := Success(Crc32.Finalize(hasher));
  }

  /** What opening a path gives: a reader's script, or the error of the open. */
  type FileTable = map<Path, Result<seq<ReadStep>, IoError>>

  function Open(files: FileTable, path: Path): Result<seq<ReadStep>, IoError> {
    if path in files then files[path] else Failure(NotFound)
  }

  /**
   * hash_file_contents (src/file.rs:21-24): fails only when the open fails;
   * otherwise it is hash of the opened file.
   */
  method HashFileContents(files: FileTable, path: Path, buffer: array<byte>) returns (r: Result<bv32, IoError>)
    modifies buffer
    ensures Open(files, path).Failure? ==> r == Failure(Open(files, path).error)
    ensures Open(files, path).Success? ==> r == Success(Crc32.Checksum(Fed(Open(files, path).value, buffer.Length)))
  {
    var open := Open(files, path);
    if open.Failure? {
      return Failure(open.error);
    }
    var file := new Reader(open.value);
    r := Hash(file, buffer);
  }

  /**
   * The hash test (src/file.rs:51-64): with a 1024-byte buffer, "hello world"
   * hashes to 0x0D4A1185 and "world, hello " does not.
   */
  method HashTest() returns (helloWorld: Result<bv32, IoError>, worldHello: Result<bv32, IoError>)
    ensures helloWorld == Success(0x0D4A_1185)
    ensures worldHello.Success? && worldHello.value != 0x0D4A_1185
  {
    var buffer := new byte[1024];
    var cursor := new Reader([Data(Crc32.HELLO_WORLD)]);
    helloWorld := Hash(cursor, buffer);
    cursor := new Reader([Data(Crc32.WORLD_HELLO)]);
    worldHello := Hash(cursor, buffer);
    FedOneRun(Crc32.HELLO_WORLD, 1024);
    FedOneRun(Crc32.WORLD_HELLO, 1024);
    Crc32.HelloWorldChecksum();
  }

  /**
   * The hash_file_contents test (src/file.rs:66-78): a file holding "hello
   * world", hashed through a 1024-byte buffer, gives 0x0D4A1185.
   */
  method HashFileContentsTest(path: Path) returns (r: Result<bv32, IoError>)
    ensures r == Success(0x0D4A_1185)
  {
    var buffer := new byte[1024];
    var files: FileTable := map[path := Success([Data(Crc32.HELLO_WORLD)])];
    r := HashFileContents(files, path, buffer);
    FedOneRun(Crc32.HELLO_WORLD, 1024);
    Crc32.HelloWorldChecksum();
  }
}
