/**
 * The sample cache of src/sample_pool/pool.rs: a SamplePool keeps two maps
 * keyed by SampleId, the decoded buffers and the files they came from. WAV
 * decoding is an input: each path maps to what the decoder reports for it
 * (its header fields and the stream of per-sample decode results), and the
 * scaling of integer samples to floats is an opaque per-sample function.
 */
module Pool {
  import opened Wrappers
  import opened Arc
  import Interleave
  import Base
  import Shared
  import File
  import Crc32
  import Manifest

  type byte = Crc32.byte

  datatype SampleError = FormatError | FileError | InvalidFormat | InvalidChannelCount | EmptySample

  /** The decoder's own errors that SampleError converts (src/sample_pool/pool.rs:16-25). */
  datatype DecoderError = MalformedFile | DecoderIoError | Unsupported

  function FromDecoderError(e: DecoderError): (r: SampleError)
    ensures r != EmptySample && r != InvalidChannelCount
  {
    match e
    case MalformedFile => FormatError
    case DecoderIoError => FileError
    case Unsupported => InvalidFormat
  }

  /**
   * From<std::io::Error> (src/sample_pool/pool.rs:27-34): NotFound becomes
   * FileError; every other kind reaches a todo! and panics, modelled as None.
   */
  function FromIoError(e: File.IoError): Option<SampleError> {
    match e
    case NotFound => Some(FileError)
    case OtherIoError => None
  }

  /** An identifier; the uuid is an arbitrary number, picked fresh for every insert. */
  datatype SampleId = SampleId(uuid: nat)

  datatype SampleFormat = Float | Int

  /**
   * What the decoder reports for one file: the header and each sample's
   * decode result. For a Float file an item is the f32's bit pattern, a
   * number below 2^32; for an Int file it is the integer sample.
   */
  datatype WavFile = WavFile(format: SampleFormat, bitsPerSample: nat, channels: nat, sampleRate: nat, samples: seq<Option<int>>)

  /** The three loaders: f32 samples as they are, i16 and i24 scaled to floats. */
  datatype Loader = F32 | I16 | I24

  /**
   * The outside world a pool operation sees: what opening each path as WAV
   * gives (an absent path is a file that cannot be opened), how the i16 and
   * i24 loaders turn an integer sample into a float, and what opening each
   * path as a plain file gives for hashing.
   */
  datatype Env = Env(wavs: map<File.Path, Result<WavFile, DecoderError>>, scale: (Loader, int) -> Sample, files: File.FileTable)

  function OpenWav(env: Env, path: File.Path): Result<WavFile, SampleError> {
    if path !in env.wavs then Failure(FileError)
    else match env.wavs[path]
      case Success(wav) => Success(wav)
      case Failure(e) => Failure(FromDecoderError(e))
  }

  /** The loader for a format and bit depth (src/sample_pool/pool.rs:98-103). */
  function LoaderFor(format: SampleFormat, bits: nat): (r: Option<Loader>)
    ensures r.Some? <==> (format == Float && bits == 32) || (format == Int && (bits == 16 || bits == 24))
  {
    match format
    case Float => if bits == 32 then Some(F32) else None
    case Int => if bits == 16 then Some(I16) else if bits == 24 then Some(I24) else None
  }

  /**
   * How a loader turns one decoded item into a sample: load_f32_wav pushes
   * the f32 as it is; load_i16_wav and load_i24_wav multiply by 1 / i16::MAX
   * and 1 / (2^23 - 1), f32 arithmetic left to scale.
   */
  function Convert(loader: Loader, scale: (Loader, int) -> Sample, item: int): Sample {
    if loader == F32 then Bits(item) else scale(loader, item)
  }

  /** A Float item as the f32 bit pattern it stands for. */
  function Bits(item: int): Sample {
    var n := item % 0x1_0000_0000;
    n as Sample
  }

  /** A bit pattern read back as a number is the same pattern. */
  lemma BitsOfPattern(bits: Sample)
    ensures Bits(bits as int) == bits
  {
    var n := bits as int;
    assert n % 0x1_0000_0000 == n;
  }

  /** The f32 loader hands every decoded sample on unchanged, whatever the scaling. */
  lemma F32PassesThrough(scale: (Loader, int) -> Sample, bits: Sample)
    ensures Convert(F32, scale, bits as int) == bits
  {
    BitsOfPattern(bits);
  }

  /** How many items of the stream decoded successfully. */
  function OkCount(stream: seq<Option<int>>): nat {
    if stream == [] then 0 else OkCount(stream[..|stream| - 1]) + (if stream[|stream| - 1].Some? then 1 else 0)
  }

  /**
   * What a load_*_wav helper collects: the successful items, in order,
   * through the loader's scaling; the failed ones are skipped.
   */
  function Kept(stream: seq<Option<int>>, loader: Loader, scale: (Loader, int) -> Sample): (r: seq<Sample>)
    ensures |r| == OkCount(stream) <= |stream|
  {
    if stream == [] then []
    else
      var last := stream[|stream| - 1];
      Kept(stream[..|stream| - 1], loader, scale) + (if last.Some? then [Convert(loader, scale, last.value)] else [])
  }

  /** Kept works item by item: a stream split in two keeps each part's items, in order. */
  lemma {:induction false} KeptConcat(a: seq<Option<int>>, b: seq<Option<int>>, loader: Loader, scale: (Loader, int) -> Sample)
    ensures Kept(a + b, loader, scale) == Kept(a, loader, scale) + Kept(b, loader, scale)
    decreases |b|
  {
    if b == [] {
      assert a + b == a;
    } else {
      var b' := b[..|b| - 1];
      assert (a + b)[..|a + b| - 1] == a + b';
      assert (a + b)[|a + b| - 1] == b[|b| - 1];
      KeptConcat(a, b', loader, scale);
    }
  }

  /** With no decode failures every item is kept, converted, at its own position. */
  lemma {:induction false} KeptAllOk(stream: seq<Option<int>>, loader: Loader, scale: (Loader, int) -> Sample)
    requires forall i :: 0 <= i < |stream| ==> stream[i].Some?
    ensures Kept(stream, loader, scale) == seq(|stream|, i requires 0 <= i < |stream| => Convert(loader, scale, stream[i].value))
  {
    if stream != [] {
      KeptAllOk(stream[..|stream| - 1], loader, scale);
    }
  }

  /** A Float file whose every item decodes loads exactly the bit patterns it holds, in order. */
  lemma F32KeepsPatterns(patterns: seq<Sample>, scale: (Loader, int) -> Sample)
    ensures Kept(seq(|patterns|, i requires 0 <= i < |patterns| => Some(patterns[i] as int)), F32, scale) == patterns
  {
    var stream := seq(|patterns|, i requires 0 <= i < |patterns| => Some(patterns[i] as int));
    KeptAllOk(stream, F32, scale);
    forall i | 0 <= i < |patterns|
      ensures Convert(F32, scale, stream[i].value) == patterns[i]
    {
      F32PassesThrough(scale, patterns[i]);
    }
  }

  /**
   * load_f32_wav, load_i16_wav, load_i24_wav (src/sample_pool/pool.rs:166-206):
   * the successful items pushed in order onto a vector, which becomes a new
   * storage with one owner.
   */
  method LoadWav(stream: seq<Option<int>>, loader: Loader, scale: (Loader, int) -> Sample) returns (b: Shared.SharedBuffer)
    ensures fresh(b.arc) && b.arc.strong == 1
    ensures b.Data() == Kept(stream, loader, scale)
  {
    var output: seq<Sample> := [];
    for i := 0 to |stream|
      invariant output == Kept(stream[..i], loader, scale)
    {
      assert stream[..i + 1][..i] == stream[..i];
      if stream[i].Some? {
        output := output + [Convert(loader, scale, stream[i].value)];
      }
    }
    assert stream[..|stream|] == stream;
    b := Shared.FromVec(output);
  }

  /**
   * The channels add_sample builds before the empty check: one channel of
   * every kept sample, or for two channels the even and odd kept samples.
   */
  function Decode(env: Env, path: File.Path): Result<Base.ChannelBuffer<Sample>, SampleError> {
    match OpenWav(env, path)
    case Failure(e) => Failure(e)
    case Success(wav) =>
      match LoaderFor(wav.format, wav.bitsPerSample)
      case None => Failure(InvalidFormat)
      case Some(loader) =>
        var samples := Kept(wav.samples, loader, env.scale);
        if wav.channels == 1 then Success(Base.ChannelBuffer.FromMono(samples))
        else if wav.channels == 2 then Success(Base.ChannelBuffer.FromStereoDeinterleaved(Interleave.Evens(samples), Interleave.Odds(samples)))
        else Failure(InvalidChannelCount)
  }

  /** The outcome of add_sample for a path: the decoded channels, or why it is refused. */
  function Admit(env: Env, path: File.Path): (r: Result<Base.ChannelBuffer<Sample>, SampleError>)
    ensures r.Success? ==> r.value.Size() > 0
  {
    match Decode(env, path)
    case Failure(e) => Failure(e)
    case Success(c) =>
      Base.BothChannelsEmptyIffNoSamples(c);
      if c.BothChannelsEmpty() then Failure(EmptySample) else Success(c)
  }

  /**
   * The dispatch of add_sample (src/sample_pool/pool.rs:94-116, 155-157), in
   * the order the checks happen: opening, format, channel count, emptiness.
   */
  lemma AdmitOutcomes(env: Env, path: File.Path)
    ensures path !in env.wavs ==> Admit(env, path) == Failure(FileError)
    ensures path in env.wavs && env.wavs[path].Failure? ==>
      Admit(env, path) == Failure(FromDecoderError(env.wavs[path].error))
    ensures path in env.wavs && env.wavs[path].Success? ==>
      var wav := env.wavs[path].value;
      var loader := LoaderFor(wav.format, wav.bitsPerSample);
      && (loader.None? ==> Admit(env, path) == Failure(InvalidFormat))
      && (loader.Some? && wav.channels != 1 && wav.channels != 2 ==> Admit(env, path) == Failure(InvalidChannelCount))
      && (loader.Some? && wav.channels == 1 ==>
            var kept := Kept(wav.samples, loader.value, env.scale);
            Admit(env, path) == if kept == [] then Failure(EmptySample) else Success(Base.Mono(kept)))
      && (loader.Some? && wav.channels == 2 ==>
            var kept := Kept(wav.samples, loader.value, env.scale);
            Admit(env, path) == if |kept| < 2 then Failure(EmptySample)
                                else Success(Base.Stereo(Interleave.Evens(kept), Interleave.Odds(kept))))
  {
  }

  /** A two-channel file with fewer than two successfully decoded samples is refused as empty. */
  lemma StereoNeedsTwoDecodedSamples(env: Env, path: File.Path)
    requires path in env.wavs && env.wavs[path].Success?
    requires LoaderFor(env.wavs[path].value.format, env.wavs[path].value.bitsPerSample).Some?
    requires env.wavs[path].value.channels == 2 && OkCount(env.wavs[path].value.samples) < 2
    ensures Admit(env, path) == Failure(EmptySample)
  {
    AdmitOutcomes(env, path);
  }

  /** The sample rate is only logged: a file that differs from another only in its rate is admitted the same way. */
  lemma SampleRateOnlyWarns(env: Env, path: File.Path, wav: WavFile, rate: nat)
    requires path in env.wavs && env.wavs[path] == Success(wav)
    ensures Admit(env.(wavs := env.wavs[path := Success(wav.(sampleRate := rate))]), path) == Admit(env, path)
  {
    var env' := env.(wavs := env.wavs[path := Success(wav.(sampleRate := rate))]);
    assert OpenWav(env', path) == Success(wav.(sampleRate := rate));
  }

  /** The handles of a stored buffer show the samples of the decoded channels. */
  predicate Holds(b: Shared.SharedAudioBuffer, c: Base.ChannelBuffer<Sample>) {
    b.IsStereo() == c.IsStereo() && b.Left() == c.Left() && b.Right() == c.Right()
  }

  /** A buffer holding decoded channels has their size and is empty exactly when they are. */
  lemma HoldsSameSize(b: Shared.SharedAudioBuffer, c: Base.ChannelBuffer<Sample>)
    requires Holds(b, c)
    ensures b.Size() == c.Size()
    ensures b.IsEmpty() <==> c.BothChannelsEmpty()
  {
  }

  /**
   * The decoding half of add_sample (src/sample_pool/pool.rs:95-113): open,
   * pick the loader by format, load, and build Mono or deinterleaved Stereo
   * in fresh storage nobody else holds.
   */
  method LoadBuffer(env: Env, path: File.Path) returns (r: Result<Shared.SharedAudioBuffer, SampleError>)
    ensures Decode(env, path).Failure? ==> r == Failure(Decode(env, path).error)
    ensures Decode(env, path).Success? ==>
      && r.Success? && Holds(r.value, Decode(env, path).value)
      && fresh(r.value.Arcs()) && r.value.IsUnique()
  {
    var wav := OpenWav(env, path);
    if wav.Failure? {
      return Failure(wav.error);
    }
    var loader := LoaderFor(wav.value.format, wav.value.bitsPerSample);
    if loader.None? {
      return Failure(InvalidFormat);
    }
    var loaded := LoadWav(wav.value.samples, loader.value, env.scale);
    ghost var kept := Kept(wav.value.samples, loader.value, env.scale);
    var buffer: Shared.SharedAudioBuffer;
    if wav.value.channels == 1 {
      buffer := Shared.SharedAudioBuffer.FromMono(loaded);
      assert Decode(env, path) == Success(Base.Mono(kept));
    } else if wav.value.channels == 2 {
      buffer := Shared.FromStereoInterleaved(loaded);
      assert Decode(env, path) == Success(Base.Stereo(Interleave.Evens(kept), Interleave.Odds(kept)));
    } else {
      return Failure(InvalidChannelCount);
    }
    r := Success(buffer);
  }

  /** The sizes summed over a map of buffers: what live_memory adds up. */
  ghost function SizeSum(m: map<SampleId, Shared.SharedAudioBuffer>): nat
    decreases |m|
  {
    if m == map[] then 0
    else var k :| k in m; m[k].Size() + SizeSum(m - {k})
  }

  /** The sum does not depend on which key is taken out first. */
  lemma {:induction false} SizeSumRemove(m: map<SampleId, Shared.SharedAudioBuffer>, k: SampleId)
    requires k in m
    ensures SizeSum(m) == m[k].Size() + SizeSum(m - {k})
    decreases |m|
  {
    var j :| j in m && SizeSum(m) == m[j].Size() + SizeSum(m - {j});
    if j != k {
      SizeSumRemove(m - {j}, k);
      SizeSumRemove(m - {k}, j);
      assert m - {j} - {k} == m - {k} - {j};
    }
  }

  /** Inserting under a new id adds one sample and that buffer's size to the accounting. */
  lemma InsertGrowsAccounting(m: map<SampleId, Shared.SharedAudioBuffer>, id: SampleId, b: Shared.SharedAudioBuffer)
    requires id !in m
    ensures |m[id := b]| == |m| + 1
    ensures SizeSum(m[id := b]) == SizeSum(m) + b.Size()
  {
    SizeSumRemove(m[id := b], id);
    assert m[id := b] - {id} == m;
  }

  /** Taking out a key that is not there leaves the map as it was. */
  lemma RemoveAbsent<V>(m: map<SampleId, V>, id: SampleId)
    requires id !in m
    ensures m - {id} == m
  {
  }

  /** Removing an id takes that buffer's size off the accounting. */
  lemma RemoveShrinksAccounting(m: map<SampleId, Shared.SharedAudioBuffer>, id: SampleId)
    requires id in m
    ensures |m - {id}| == |m| - 1
    ensures SizeSum(m - {id}) == SizeSum(m) - m[id].Size()
  {
    SizeSumRemove(m, id);
  }

  /**
   * The file map f is f0 plus one new id per path for the first |ids| paths:
   * ids[k] files paths[k], the ids are pairwise different and were not in
   * use in f0, and the earlier entries are as they were. The count then
   * leaves room for nothing else in f.
   */
  ghost predicate Files(f0: map<SampleId, File.Path>, f: map<SampleId, File.Path>, ids: seq<SampleId>, paths: seq<File.Path>) {
    && |ids| <= |paths|
    && (forall a, b :: 0 <= a < b < |ids| ==> ids[a] != ids[b])
    && (forall k :: 0 <= k < |ids| ==> ids[k] !in f0 && ids[k] in f && f[ids[k]] == paths[k])
    && (forall id :: id in f0 ==> id in f && f[id] == f0[id])
    && |f| == |f0| + |ids|
  }

  /** Pairwise different ids, all in f, stay pairwise different with one more id from outside f. */
  lemma DistinctStep(f: map<SampleId, File.Path>, ids: seq<SampleId>, id: SampleId)
    requires forall a, b :: 0 <= a < b < |ids| ==> ids[a] != ids[b]
    requires forall k :: 0 <= k < |ids| ==> ids[k] in f
    requires id !in f
    ensures forall a, b :: 0 <= a < b < |ids + [id]| ==> (ids + [id])[a] != (ids + [id])[b]
  {
    var ids' := ids + [id];
    assert forall k :: 0 <= k < |ids| ==> ids'[k] == ids[k];
  }

  /** Filing one more path under an id from outside f keeps every earlier filing. */
  lemma FiledStep(f0: map<SampleId, File.Path>, f: map<SampleId, File.Path>, ids: seq<SampleId>, paths: seq<File.Path>, id: SampleId)
    requires |ids| < |paths| && id !in f0 && id !in f
    requires forall k :: 0 <= k < |ids| ==> ids[k] !in f0 && ids[k] in f && f[ids[k]] == paths[k]
    requires forall x :: x in f0 ==> x in f && f[x] == f0[x]
    ensures forall k :: 0 <= k < |ids + [id]| ==>
      (ids + [id])[k] !in f0 && (ids + [id])[k] in f[id := paths[|ids|]] && f[id := paths[|ids|]][(ids + [id])[k]] == paths[k]
    ensures forall x :: x in f0 ==> x in f[id := paths[|ids|]] && f[id := paths[|ids|]][x] == f0[x]
  {
    var ids' := ids + [id];
    assert forall k :: 0 <= k < |ids| ==> ids'[k] == ids[k];
  }

  /** Filing the next path under an id not in use keeps the relation. */
  lemma FilesStep(f0: map<SampleId, File.Path>, f: map<SampleId, File.Path>, ids: seq<SampleId>, paths: seq<File.Path>, id: SampleId)
    requires Files(f0, f, ids, paths) && |ids| < |paths| && id !in f
    ensures Files(f0, f[id := paths[|ids|]], ids + [id], paths)
  {
    DistinctStep(f, ids, id);
    FiledStep(f0, f, ids, paths, id);
  }

  /** More paths after the ones filed change nothing. */
  lemma FilesLonger(f0: map<SampleId, File.Path>, f: map<SampleId, File.Path>, ids: seq<SampleId>, paths: seq<File.Path>, p: File.Path)
    requires Files(f0, f, ids, paths)
    ensures Files(f0, f, ids, paths + [p])
  {
  }

  /** The buffers stored before are still stored, unchanged. */
  ghost predicate Keeps(s0: map<SampleId, Shared.SharedAudioBuffer>, s: map<SampleId, Shared.SharedAudioBuffer>) {
    forall id :: id in s0 ==> id in s && s[id] == s0[id]
  }

  /** Storing a buffer under an id not stored before keeps the others. */
  lemma KeepsStep(s0: map<SampleId, Shared.SharedAudioBuffer>, s: map<SampleId, Shared.SharedAudioBuffer>, id: SampleId, b: Shared.SharedAudioBuffer)
    requires Keeps(s0, s) && id !in s
    ensures Keeps(s0, s[id := b])
  {
  }

  /**
   * After visiting the first i paths of a walk from the maps (s0, f0): the
   * paths with a true verdict so far are filed under added, in order, and
   * the buffers stored before are still there.
   */
  ghost predicate Progress(s0: map<SampleId, Shared.SharedAudioBuffer>, f0: map<SampleId, File.Path>,
                           s: map<SampleId, Shared.SharedAudioBuffer>, f: map<SampleId, File.Path>,
                           walk: seq<File.Path>, verdicts: seq<bool>, i: nat, added: seq<SampleId>)
  {
    && i <= |walk| == |verdicts|
    && |added| == |Chosen(walk, verdicts, i)|
    && Files(f0, f, added, Chosen(walk, verdicts, i))
    && Keeps(s0, s)
  }

  /** Visiting path i either changes nothing (a false verdict) or files it under a new id. */
  lemma ProgressStep(s0: map<SampleId, Shared.SharedAudioBuffer>, f0: map<SampleId, File.Path>,
                     s: map<SampleId, Shared.SharedAudioBuffer>, f: map<SampleId, File.Path>,
                     walk: seq<File.Path>, verdicts: seq<bool>, i: nat, added: seq<SampleId>,
                     one: Option<SampleId>, s': map<SampleId, Shared.SharedAudioBuffer>, f': map<SampleId, File.Path>)
    requires Progress(s0, f0, s, f, walk, verdicts, i, added) && i < |walk|
    requires one.None? ==> !verdicts[i] && s' == s && f' == f
    requires one.Some? ==> verdicts[i] && one.value !in s && one.value !in f && one.value in s'
    requires one.Some? ==> s' == s[one.value := s'[one.value]] && f' == f[one.value := walk[i]]
    ensures Progress(s0, f0, s', f', walk, verdicts, i + 1, if one.Some? then added + [one.value] else added)
  {
    var chosen := Chosen(walk, verdicts, i);
    if one.Some? {
      FilesLonger(f0, f, added, chosen, walk[i]);
      FilesStep(f0, f, added, chosen + [walk[i]], one.value);
      KeepsStep(s0, s, one.value, s'[one.value]);
    }
  }

  /** A number above every uuid in use. */
  ghost function Bound(keys: set<SampleId>): (n: nat)
    ensures forall k :: k in keys ==> k.uuid < n
    decreases |keys|
  {
    if keys == {} then 0
    else
      var k :| k in keys;
      var rest := Bound(keys - {k});
      if k.uuid < rest then rest else k.uuid + 1
  }

  /** uuid::Uuid::new_v4(): some id not already in use. */
  method FreshId(keys: set<SampleId>) returns (id: SampleId)
    ensures id !in keys
  {
    assert SampleId(Bound(keys)) !in keys;
    id :| id !in keys;
  }

  /** The paths add_samples tries: those whose extension is exactly "wav". */
  const WAV: seq<byte> := [0x77, 0x61, 0x76]

  predicate IsWav(path: File.Path) {
    path.extension == Some(WAV)
  }

  /** Whether add_samples keeps a path: a wav path that add_sample admits. */
  predicate Takes(env: Env, path: File.Path) {
    IsWav(path) && Admit(env, path).Success?
  }

  /** The verdict on each path of a walk, in walk order. */
  function Verdicts(env: Env, walk: seq<File.Path>): (v: seq<bool>)
    ensures |v| == |walk|
  {
    seq(|walk|, k requires 0 <= k < |walk| => Takes(env, walk[k]))
  }

  /** The first n paths of a walk whose verdict is true, in walk order. */
  function Chosen(walk: seq<File.Path>, verdicts: seq<bool>, n: nat): (r: seq<File.Path>)
    requires n <= |walk| && n <= |verdicts|
    ensures |r| <= n
  {
    if n == 0 then []
    else Chosen(walk, verdicts, n - 1) + (if verdicts[n - 1] then [walk[n - 1]] else [])
  }

  /** The paths of a walk that add_samples turns into samples, in walk order. */
  function Accepted(env: Env, walk: seq<File.Path>): (r: seq<File.Path>)
    ensures |r| <= |walk|
  {
    Chosen(walk, Verdicts(env, walk), |walk|)
  }

  /** A path is chosen exactly when it is among the first n and its verdict there is true. */
  lemma {:induction false} ChosenIff(walk: seq<File.Path>, verdicts: seq<bool>, n: nat, p: File.Path)
    requires n <= |walk| && n <= |verdicts|
    ensures p in Chosen(walk, verdicts, n) <==> exists k :: 0 <= k < n && verdicts[k] && walk[k] == p
  {
    if n > 0 {
      ChosenIff(walk, verdicts, n - 1, p);
    }
  }

  /** A path is accepted exactly when it is in the walk, has the wav extension and is admitted. */
  lemma AcceptedIffAdmitted(env: Env, walk: seq<File.Path>, p: File.Path)
    ensures p in Accepted(env, walk) <==> p in walk && IsWav(p) && Admit(env, p).Success?
  {
    var v := Verdicts(env, walk);
    ChosenIff(walk, v, |walk|, p);
    if p in walk && Takes(env, p) {
      var k :| 0 <= k < |walk| && walk[k] == p;
      assert v[k];
    }
  }

  /** The error of the first entry path that is refused, if any. */
  function FirstFailure(env: Env, paths: seq<File.Path>): (r: Option<SampleError>)
  {
    if paths == [] then None
    else match Admit(env, paths[0])
      case Failure(e) => Some(e)
      case Success(_) => FirstFailure(env, paths[1..])
  }

  /** Nothing fails exactly when every path is admitted. */
  lemma {:induction false} FirstFailureNoneIffAllAdmitted(env: Env, paths: seq<File.Path>)
    ensures FirstFailure(env, paths).None? <==> forall i :: 0 <= i < |paths| ==> Admit(env, paths[i]).Success?
  {
    if paths != [] {
      var rest := paths[1..];
      FirstFailureNoneIffAllAdmitted(env, rest);
      if Admit(env, paths[0]).Success? {
        assert FirstFailure(env, paths) == FirstFailure(env, rest);
        assert forall i :: 1 <= i < |paths| ==> paths[i] == rest[i - 1];
      } else {
        assert FirstFailure(env, paths).Some?;
      }
    }
  }

  /** The search for the first refusal moves past an admitted path. */
  lemma FirstFailureStep(env: Env, paths: seq<File.Path>, i: nat)
    requires i < |paths|
    ensures Admit(env, paths[i]).Failure? ==> FirstFailure(env, paths[i..]) == Some(Admit(env, paths[i]).error)
    ensures Admit(env, paths[i]).Success? ==> FirstFailure(env, paths[i..]) == FirstFailure(env, paths[i + 1..])
  {
    assert paths[i..][0] == paths[i];
    assert paths[i..][1..] == paths[i + 1..];
  }

  /** The paths a manifest lists, in order. */
  function EntryPaths(entries: seq<Manifest.ManifestEntry>): seq<File.Path> {
    seq(|entries|, i requires 0 <= i < |entries| => entries[i].path)
  }

  /** The entry build_manifest writes for a path, a buffer size and a content hash. */
  function EntryFor(path: File.Path, size: nat, hash: bv32): Manifest.ManifestEntry {
    Manifest.ManifestEntry(path, size, path.stem.GetOr([]), hash)
  }

  /** The content hash of an openable file read through a buffer of capacity cap. */
  function ContentHash(env: Env, path: File.Path, cap: nat): bv32
    requires File.Open(env.files, path).Success?
  {
    Crc32.Checksum(File.Fed(File.Open(env.files, path).value, cap))
  }

  /** Through a zero-length buffer every file hashes as empty input: CRC-32 of nothing, 0. */
  lemma ZeroCapacityHashIsZero(env: Env, path: File.Path)
    requires File.Open(env.files, path).Success?
    ensures ContentHash(env, path, 0) == 0
  {
    File.EmptyBufferFeedsNothing(File.Open(env.files, path).value);
    Crc32.EmptyChecksum();
  }

  /** Through any real buffer the hash covers the file's whole byte stream. */
  lemma PositiveCapacityHashesStream(env: Env, path: File.Path, cap: nat)
    requires File.Open(env.files, path).Success? && cap > 0
    ensures ContentHash(env, path, cap) == Crc32.Checksum(File.Stream(File.Open(env.files, path).value))
  {
    File.FedIgnoresCapacity(File.Open(env.files, path).value, cap);
  }

  /** The evidently intended hash differs from the written one for "hello world". */
  lemma ZeroCapacityMissesContent(env: Env, path: File.Path)
    requires File.Open(env.files, path) == Success([File.Data(Crc32.HELLO_WORLD)])
    ensures ContentHash(env, path, 0) == 0
    ensures ContentHash(env, path, 4096) == 0x0D4A_1185
  {
    ZeroCapacityHashIsZero(env, path);
    File.FedOneRun(Crc32.HELLO_WORLD, 4096);
    Crc32.HelloWorldChecksum();
  }

  /** The ids of order are pairwise different filed ids. */
  ghost predicate Enumerated(files: map<SampleId, File.Path>, order: seq<SampleId>) {
    && (forall a, b :: 0 <= a < b < |order| ==> order[a] != order[b])
    && (forall k :: 0 <= k < |order| ==> order[k] in files)
  }

  /** Visiting one more id not visited before keeps the ids pairwise different. */
  lemma EnumeratedStep(files: map<SampleId, File.Path>, remaining: set<SampleId>, order: seq<SampleId>, id: SampleId)
    requires Enumerated(files, order) && (forall k :: 0 <= k < |order| ==> order[k] !in remaining)
    requires id in remaining && id in files
    ensures Enumerated(files, order + [id])
  {
    var order' := order + [id];
    assert forall k :: 0 <= k < |order| ==> order'[k] == order[k];
  }

  /** Every id of order is filed, and every filed path opens. */
  ghost predicate Openable(env: Env, files: map<SampleId, File.Path>, order: seq<SampleId>) {
    forall k :: 0 <= k < |order| ==> order[k] in files && File.Open(env.files, files[order[k]]).Success?
  }

  /**
   * The entries build_manifest writes when it visits the ids in order,
   * hashing through a buffer of capacity cap.
   */
  ghost function Listing(env: Env, files: map<SampleId, File.Path>, samples: map<SampleId, Shared.SharedAudioBuffer>,
                         order: seq<SampleId>, cap: nat): (entries: seq<Manifest.ManifestEntry>)
    requires Openable(env, files, order)
    requires forall k :: 0 <= k < |order| ==> order[k] in samples
    ensures |entries| == |order|
  {
    seq(|order|, k requires 0 <= k < |order| =>
      EntryFor(files[order[k]], samples[order[k]].Size(), ContentHash(env, files[order[k]], cap)))
  }

  /**
   * build_manifest after visiting the ids in order: they are pairwise
   * different filed ids, none of them is still to visit, together with the
   * rest they are all the ids, every one of their files opened, and the
   * entries so far are their listing.
   */
  ghost predicate Built(env: Env, files: map<SampleId, File.Path>, samples: map<SampleId, Shared.SharedAudioBuffer>, cap: nat,
                        remaining: set<SampleId>, order: seq<SampleId>, entries: seq<Manifest.ManifestEntry>)
  {
    && remaining <= files.Keys && files.Keys <= samples.Keys
    && Enumerated(files, order)
    && (forall k :: 0 <= k < |order| ==> order[k] !in remaining)
    && Openable(env, files, order)
    && |order| + |remaining| == |files|
    && entries == Listing(env, files, samples, order, cap)
  }

  /** Visiting one more id whose file opens extends the listing by its entry. */
  lemma BuiltStep(env: Env, files: map<SampleId, File.Path>, samples: map<SampleId, Shared.SharedAudioBuffer>, cap: nat,
                  remaining: set<SampleId>, order: seq<SampleId>, entries: seq<Manifest.ManifestEntry>, id: SampleId)
    requires Built(env, files, samples, cap, remaining, order, entries)
    requires id in remaining && File.Open(env.files, files[id]).Success?
    ensures Built(env, files, samples, cap, remaining - {id}, order + [id],
                  entries + [EntryFor(files[id], samples[id].Size(), ContentHash(env, files[id], cap))])
  {
    var order' := order + [id];
    EnumeratedStep(files, remaining, order, id);
    assert forall k :: 0 <= k < |order| ==> order'[k] == order[k];
    assert Openable(env, files, order');
    var entry := EntryFor(files[id], samples[id].Size(), ContentHash(env, files[id], cap));
    assert Listing(env, files, samples, order', cap) == entries + [entry];
  }

  /** The pool: the buffers and the files they came from, under the same ids. */
  class SamplePool {
    var samples: map<SampleId, Shared.SharedAudioBuffer>
    var files: map<SampleId, File.Path>

    /** Both maps track the same ids, and no stored buffer is empty. */
    ghost predicate Valid()
      reads this
    {
      && samples.Keys == files.Keys
      && forall id :: id in samples ==> !samples[id].IsEmpty()
    }

    /** SamplePool::default(): no samples. */
    constructor ()
      ensures Valid()
      ensures samples == map[] && files == map[]
    {
      samples, files := map[], map[];
    }

    /** sample_count (src/sample_pool/pool.rs:142-144): in a valid pool, also the number of files tracked. */
    function SampleCount(): (n: nat)
      reads this
      ensures Valid() ==> n == |files|
    {
      |samples|
    }

    /**
     * insert_sample (src/sample_pool/pool.rs:150-163): an empty buffer is
     * refused and nothing changes; otherwise both maps gain the buffer and
     * the path under one id that was not in use, and nothing else changes.
     */
    method InsertSample(buffer: Shared.SharedAudioBuffer, path: File.Path) returns (r: Result<SampleId, SampleError>)
      requires Valid()
      modifies this
      ensures Valid()
      ensures buffer.IsEmpty() ==> r == Failure(EmptySample) && samples == old(samples) && files == old(files)
      ensures !buffer.IsEmpty() ==>
        && r.Success? && r.value !in old(samples)
        && samples == old(samples)[r.value := buffer]
        && files == old(files)[r.value := path]
      ensures !buffer.IsEmpty() ==> SampleCount() == old(SampleCount()) + 1
      ensures !buffer.IsEmpty() ==> SizeSum(samples) == old(SizeSum(samples)) + buffer.Size()
    {
      if buffer.IsEmpty() {
        return Failure(EmptySample);
      }
      var id := FreshId(samples.Keys);
      InsertGrowsAccounting(samples, id, buffer);
      samples := samples[id := buffer];
      files := files[id := path];
      r := Success(id);
    }

    /**
     * add_sample (src/sample_pool/pool.rs:94-116): a refused path leaves the
     * pool as it was and reports why; an admitted one is stored under a new
     * id in a fresh, unshared buffer holding the decoded channels.
     */
    method AddSample(env: Env, path: File.Path) returns (r: Result<SampleId, SampleError>)
      requires Valid()
      modifies this
      ensures Valid()
      ensures Admit(env, path).Failure? ==>
        r == Failure(Admit(env, path).error) && samples == old(samples) && files == old(files)
      ensures Admit(env, path).Success? ==>
        && r.Success? && r.value !in old(samples) && r.value in samples
        && samples == old(samples)[r.value := samples[r.value]]
        && files == old(files)[r.value := path]
        && Holds(samples[r.value], Admit(env, path).value)
        && fresh(samples[r.value].Arcs()) && samples[r.value].IsUnique()
    {
      var loaded := LoadBuffer(env, path);
      if loaded.Failure? {
        return Failure(loaded.error);
      }
      HoldsSameSize(loaded.value, Decode(env, path).value);
      label decoded:
      r := InsertSample(loaded.value, path);
      assert unchanged@decoded(loaded.value.Arcs());
    }

    /**
     * remove_sample (src/sample_pool/pool.rs:118-130): an absent id changes
     * nothing; a present one must be unique (otherwise the source stops at a
     * todo!) and leaves both maps, nothing else changing.
     */
    method RemoveSample(id: SampleId)
      requires Valid()
      requires id in samples ==> samples[id].IsUnique()
      modifies this
      ensures Valid()
      ensures samples == old(samples) - {id} && files == old(files) - {id}
      ensures id !in old(samples) ==> samples == old(samples) && files == old(files)
      ensures id in old(samples) ==> SampleCount() == old(SampleCount()) - 1
      ensures id in old(samples) ==> SizeSum(samples) == old(SizeSum(samples)) - old(samples[id].Size())
    {
      if id !in samples {
        RemoveAbsent(samples, id);
        RemoveAbsent(files, id);
        return;
      }
      RemoveShrinksAccounting(samples, id);
      samples := samples - {id};
      files := files - {id};
    }

    /** sample (src/sample_pool/pool.rs:138-140): a clone of the stored buffer, one count more per handle. */
    method Sample(id: SampleId) returns (r: Option<Shared.SharedAudioBuffer>)
      modifies if id in samples then samples[id].Arcs() else {}
      ensures id !in samples ==> r == None
      ensures id in samples ==> r == Some(samples[id])
      ensures id in samples ==> forall a :: a in samples[id].Arcs() ==> a.strong == old(a.strong) + Shared.HandlesOn(samples[id], a)
    {
      if id !in samples {
        return None;
      }
      var c := Shared.CloneAudio(samples[id]);
      r := Some(c);
    }

    /** live_memory (src/sample_pool/pool.rs:146-148): the sizes of all stored buffers, summed. */
    method LiveMemory() returns (total: nat)
      ensures total == SizeSum(samples)
    {
      var rest := samples;
      total := 0;
      while rest != map[]
        invariant total + SizeSum(rest) == SizeSum(samples)
        decreases |rest|
      {
        var id :| id in rest;
        SizeSumRemove(rest, id);
        total := total + rest[id].Size();
        rest := rest - {id};
      }
    }

    /**
     * The loop of build_manifest (src/sample_pool/pool.rs:57-73) over the
     * files map in some order, hashing every file through buffer: the first
     * file that cannot be opened ends it with that error; otherwise the
     * manifest of every id, in the visiting order.
     */
    method HashEntries(env: Env, buffer: array<byte>) returns (r: Result<Manifest.Manifest, File.IoError>, ghost order: seq<SampleId>)
      requires Valid()
      modifies buffer
      ensures Enumerated(files, order)
      ensures r.Success? ==>
        && |order| == |files| && Openable(env, files, order)
        && r.value == Manifest.New(Listing(env, files, samples, order, buffer.Length))
      ensures r.Failure? ==>
        && |order| > 0 && Openable(env, files, order[..|order| - 1])
        && File.Open(env.files, files[order[|order| - 1]]) == Failure(r.error)
    {
      var entries: seq<Manifest.ManifestEntry> := [];
      var remaining := files.Keys;
      order := [];
      while remaining != {}
        invariant Built(env, files, samples, buffer.Length, remaining, order, entries)
        decreases |remaining|
      {
        var id :| id in remaining;
        var path := files[id];
        var size := samples[id].Size();
        var hash := File.HashFileContents(env.files, path, buffer);
        if hash.Failure? {
          EnumeratedStep(files, remaining, order, id);
          assert (order + [id])[..|order|] == order;
          return Failure(hash.error), order + [id];
        }
        BuiltStep(env, files, samples, buffer.Length, remaining, order, entries, id);
        entries := entries + [EntryFor(path, size, hash.value)];
        order := order + [id];
        remaining := remaining - {id};
      }
      r := Success(Manifest.New(entries));
    }

    /**
     * build_manifest (src/sample_pool/pool.rs:56-74), as written: the buffer
     * is Vec::with_capacity(4096), whose length is 0, so every read returns 0
     * bytes and every entry's hash is the CRC-32 of no bytes, 0, whatever the
     * file holds.
     */
    method BuildManifest(env: Env) returns (r: Result<Manifest.Manifest, File.IoError>, ghost order: seq<SampleId>)
      requires Valid()
      ensures Enumerated(files, order)
      ensures r.Success? ==>
        && |order| == |files| && Openable(env, files, order)
        && r.value == Manifest.New(Listing(env, files, samples, order, 0))
        && forall k :: 0 <= k < |r.value.entries| ==> r.value.entries[k].hash == 0
      ensures r.Failure? ==>
        && |order| > 0 && order[|order| - 1] in files
        && Openable(env, files, order[..|order| - 1])
        && File.Open(env.files, files[order[|order| - 1]]) == Failure(r.error)
    {
      var buffer := new byte[0];
      r, order := HashEntries(env, buffer);
      if r.Success? {
        forall k | 0 <= k < |r.value.entries|
          ensures r.value.entries[k].hash == 0
        {
          ZeroCapacityHashIsZero(env, files[order[k]]);
        }
      }
    }

    /**
     * build_manifest with the buffer it evidently meant, 4096 bytes long:
     * every entry's hash is the CRC-32 of its file's whole content.
     */
    method BuildManifestSized(env: Env) returns (r: Result<Manifest.Manifest, File.IoError>, ghost order: seq<SampleId>)
      requires Valid()
      ensures Enumerated(files, order)
      ensures r.Success? ==>
        && |order| == |files| && Openable(env, files, order)
        && r.value == Manifest.New(Listing(env, files, samples, order, 4096))
        && forall k :: 0 <= k < |r.value.entries| ==>
             r.value.entries[k].hash == Crc32.Checksum(File.Stream(File.Open(env.files, files[order[k]]).value))
      ensures r.Failure? ==>
        && |order| > 0 && order[|order| - 1] in files
        && Openable(env, files, order[..|order| - 1])
        && File.Open(env.files, files[order[|order| - 1]]) == Failure(r.error)
    {
      var buffer := new byte[4096];
      r, order := HashEntries(env, buffer);
      if r.Success? {
        forall k | 0 <= k < |r.value.entries|
          ensures r.value.entries[k].hash == Crc32.Checksum(File.Stream(File.Open(env.files, files[order[k]]).value))
        {
          PositiveCapacityHashesStream(env, files[order[k]], 4096);
        }
      }
    }

    /**
     * The closure add_samples hands to walk_dir (src/sample_pool/pool.rs:84-90):
     * a wav path goes through add_sample and the id of a success is kept;
     * any other path, and any refusal, leaves the pool as it was.
     */
    method Visit(env: Env, path: File.Path) returns (one: Option<SampleId>)
      requires Valid()
      modifies this
      ensures Valid()
      ensures !(IsWav(path) && Admit(env, path).Success?) ==>
        one == None && samples == old(samples) && files == old(files)
      ensures IsWav(path) && Admit(env, path).Success? ==>
        && one.Some? && one.value !in old(samples)
        && one.value in samples && samples == old(samples)[one.value := samples[one.value]]
        && files == old(files)[one.value := path]
    {
      one := None;
      if IsWav(path) {
        var added := AddSample(env, path);
        if added.Success? {
          one := Some(added.value);
        }
      }
    }

    /**
     * add_samples (src/sample_pool/pool.rs:82-92): every path of the walk is
     * visited in order, and the ids of the successes come back in walk
     * order. walk is what walk_dir reports before it ends, and walkError
     * the I/O error it ends with, if any: that error goes through
     * From<io::Error> (src/sample_pool/pool.rs:27-34), whose todo! for
     * anything but NotFound is a precondition here, and the samples added
     * before it stay.
     */
    method AddSamples(env: Env, walk: seq<File.Path>, walkError: Option<File.IoError>) returns (r: Result<seq<SampleId>, SampleError>, ghost added: seq<SampleId>)
      requires Valid()
      requires walkError.Some? ==> FromIoError(walkError.value).Some?
      modifies this
      ensures Valid()
      ensures walkError.Some? ==> r == Failure(FromIoError(walkError.value).value)
      ensures walkError.None? ==> r == Success(added)
      ensures |added| == |Accepted(env, walk)|
      ensures Files(old(files), files, added, Accepted(env, walk))
      ensures Keeps(old(samples), samples)
      ensures SampleCount() == old(SampleCount()) + |added|
    {
      added := [];
      ghost var s0, f0 := samples, files;
      ghost var verdicts := Verdicts(env, walk);
      var ids: seq<SampleId> := [];
      for i := 0 to |walk|
        invariant Valid() && ids == added
        invariant Progress(s0, f0, samples, files, walk, verdicts, i, added)
      {
        ghost var before, beforeFiles := samples, files;
        var one := Visit(env, walk[i]);
        assert verdicts[i] == Takes(env, walk[i]);
        ProgressStep(s0, f0, before, beforeFiles, walk, verdicts, i, added, one, samples, files);
        if one.Some? {
          ids := ids + [one.value];
          added := added + [one.value];
        }
      }
      if walkError.Some? {
        return Failure(FromIoError(walkError.value).value), added;
      }
      r := Success(ids);
    }
  }

  /**
   * from_dir (src/sample_pool/pool.rs:76-80): a new pool filled by
   * add_samples, or its error; the accepted paths of the walk are filed
   * under ids, in walk order, and nothing else is in the pool.
   */
  method FromDir(env: Env, walk: seq<File.Path>, walkError: Option<File.IoError>) returns (r: Result<SamplePool, SampleError>, ghost ids: seq<SampleId>)
    requires walkError.Some? ==> FromIoError(walkError.value).Some?
    ensures walkError.Some? <==> r.Failure?
    ensures r.Failure? ==> r.error == FromIoError(walkError.value).value
    ensures r.Success? ==> fresh(r.value) && r.value.Valid()
    ensures r.Success? ==> r.value.SampleCount() == |Accepted(env, walk)|
    ensures r.Success? ==> |ids| == |Accepted(env, walk)| && Files(map[], r.value.files, ids, Accepted(env, walk))
  {
    var pool := new SamplePool();
    var res;
    res, ids := pool.AddSamples(env, walk, walkError);
    if res.Failure? {
      return Failure(res.error), ids;
    }
    r := Success(pool);
  }

  /**
   * After the first i entry paths went through add_sample on an empty pool:
   * none of them was refused, so the first refusal is still ahead, and each
   * one is filed under its own id.
   */
  ghost predicate Loaded(env: Env, paths: seq<File.Path>, i: nat, f: map<SampleId, File.Path>, ids: seq<SampleId>) {
    && i <= |paths| && |ids| == i
    && FirstFailure(env, paths) == FirstFailure(env, paths[i..])
    && Files(map[], f, ids, paths)
  }

  /** One more admitted entry path, filed under an id not in use, keeps the relation. */
  lemma LoadedStep(env: Env, paths: seq<File.Path>, i: nat, f: map<SampleId, File.Path>, ids: seq<SampleId>, id: SampleId)
    requires Loaded(env, paths, i, f, ids) && i < |paths|
    requires Admit(env, paths[i]).Success? && id !in f
    ensures Loaded(env, paths, i + 1, f[id := paths[i]], ids + [id])
  {
    FirstFailureStep(env, paths, i);
    FilesStep(map[], f, ids, paths, id);
  }

  /**
   * The loop of from_manifest: the paths go through add_sample in order on
   * an empty pool until the first refusal, whose error is returned.
   */
  method AddInOrder(env: Env, pool: SamplePool, paths: seq<File.Path>) returns (failure: Option<SampleError>, ghost ids: seq<SampleId>)
    requires pool.Valid() && pool.files == map[]
    modifies pool
    ensures pool.Valid()
    ensures failure == FirstFailure(env, paths)
    ensures failure.None? ==> |ids| == |paths| && Files(map[], pool.files, ids, paths)
  {
    ids := [];
    for i := 0 to |paths|
      invariant pool.Valid()
      invariant Loaded(env, paths, i, pool.files, ids)
    {
      ghost var beforeFiles := pool.files;
      var one := pool.AddSample(env, paths[i]);
      if one.Failure? {
        FirstFailureStep(env, paths, i);
        return Some(one.error), ids;
      }
      LoadedStep(env, paths, i, beforeFiles, ids, one.value);
      ids := ids + [one.value];
    }
    assert paths[|paths|..] == [];
    failure := None;
  }

  /**
   * from_manifest (src/sample_pool/pool.rs:46-54): the entries' paths go
   * through add_sample in order on a new pool; the first refusal aborts with
   * its error, otherwise entry k became sample ids[k]. Sizes, names and
   * hashes in the entries are not looked at.
   */
  method FromManifest(env: Env, manifest: Manifest.Manifest) returns (r: Result<SamplePool, SampleError>, ghost ids: seq<SampleId>)
    ensures FirstFailure(env, EntryPaths(manifest.entries)).Some? ==>
      r == Failure(FirstFailure(env, EntryPaths(manifest.entries)).value)
    ensures FirstFailure(env, EntryPaths(manifest.entries)).None? ==>
      && r.Success? && fresh(r.value) && r.value.Valid()
      && r.value.SampleCount() == |manifest.entries|
      && |ids| == |manifest.entries| && Files(map[], r.value.files, ids, EntryPaths(manifest.entries))
  {
    var paths := EntryPaths(manifest.entries);
    assert |paths| == |manifest.entries|;
    var pool := new SamplePool();
    var failure;
    failure, ids := AddInOrder(env, pool, paths);
    if failure.Some? {
      return Failure(failure.value), ids;
    }
    r := Success(pool);
  }
}
