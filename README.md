# auden sample cache — a Dafny model

auden keeps decoded audio samples in memory for playback. This project
models its core:

- **The sample pool** (`src/sample_pool/pool.rs`). A `SamplePool` holds two maps keyed by `SampleId`: the decoded buffers, and the files they came from.
  - `add_sample` opens a WAV file and picks a loader by sample format and bit depth. It builds a Mono or deinterleaved Stereo buffer and refuses an empty one.
  - `add_samples` and `from_dir` feed every `.wav` path of a directory walk to `add_sample`.
  - `from_manifest` reloads the pool from a manifest.
  - `build_manifest` lists every file with its size, name and CRC-32 content hash.
  - `remove_sample`, `sample`, `sample_count` and `live_memory` query and shrink the pool.
- **The manifest** (`src/sample_pool/manifest.rs`): a list of entries plus one aggregate CRC-32 over their derived `Hash` byte stream.
- **File hashing** (`src/file.rs`): `hash` streams a reader through a CRC-32 hasher using a caller-supplied buffer, and `hash_file_contents` opens a path and hashes it.
- **The shared buffers** of both generations (`src/buffer.rs`, `src/buffer/shared.rs`): reference-counted immutable sample storage (an `Arc<[f32]>`) behind Mono and Stereo views.
- **The generic channel container** (`src/buffer/base.rs`).
- **The stereo transforms** (`src/dsp/interleave.rs`).

The files of the model:

- `wrappers.dfy`: `Option` and `Result`.
- `crc32.dfy`: the CRC-32 function (IEEE polynomial, reflected), as a streaming hasher. Feeding bytes in chunks is proved to equal feeding them at once.
- `interleave.dfy`: `interleave_stereo` and `deinterleave_stereo`, in place on arrays, each specified by the reference sequences `Evens`, `Odds` and `InterleavedInto`.
- `arc.dfy`: `ArcSlice`, a class whose `strong` field is the Arc strong count. Clones bump it and drops lower it.
- `base.dfy`: `ChannelBuffer`, as a datatype over sample sequences.
- `shared.dfy` and `buffer.dfy`: the two generations of `SharedBuffer` and `SharedAudioBuffer`, with their reference-count effects.
- `file.dfy`:
  - A reader is a class whose field is the script of the outcomes its reads will produce.
  - `Fed` is the exact byte stream the loop of `hash` feeds to the hasher.
  - `Stream` is the bytes the reader delivers up to its first failing or 0-byte read.
  - For any non-zero buffer length the two are proved equal.
- `manifest.dfy`: `Manifest::new`. The aggregate hash is proved to be the CRC-32 of the concatenated entry bytes.
- `pool.dfy`: the `SamplePool` class and its operations. The outside world is an `Env` value:
  - what the WAV decoder reports for each path;
  - the integer-to-float scaling of the i16 and i24 loaders;
  - what opening each path as a plain file yields.

  `Admit` is the decision `add_sample` takes for a path. The pool methods are proved against it, and against the accounting function `SizeSum`.

## Model

| member | source | states |
|---|---|---|
| Crc32.UpdateConcat | src/file.rs:9-18 | feeding a then b to a hasher equals feeding a + b, so any chunking of a stream gives the same CRC-32 |
| Crc32.EmptyChecksum | src/file.rs:9-18 | the CRC-32 of no bytes is 0 |
| Crc32.HelloWorldChecksum | src/file.rs:48-49 | the CRC-32 of "hello world" is 0x0D4A1185, the repository's test vector |
| Interleave.InterleavePasses | src/dsp/interleave.rs:6-12 | the two write passes (even positions from l, then odd positions from r) leave out equal to one interleaving of n frames, the rest of out untouched |
| Interleave.InterleaveStereo | src/dsp/interleave.rs:2-13 | as written: the count is min(\|l\|, \|r\|, \|out\|); when twice that count fits in out, out becomes l and r interleaved over that count and is unchanged beyond it |
| Interleave.InterleaveCountOverrunsOutput | src/dsp/interleave.rs:4-8 | for two two-sample channels and a two-sample output the count is 2, so the second even write lands at index 2, past the end |
| Interleave.ClampedCount | src/dsp/interleave.rs:4 | the intended count is bounded by both channels and by half the output, and reaches one of these bounds |
| Interleave.InterleaveStereoClamped | src/dsp/interleave.rs:2-13 | with the clamped count every output length is accepted, and out holds the interleaving of as many frames as fit |
| Interleave.DeinterleaveStereo | src/dsp/interleave.rs:15-32 | left and right receive the even and the odd input samples in their first \|input\| / 2 positions and are unchanged beyond that; an odd trailing sample is never read |
| Interleave.InterleaveEvensOdds | src/dsp/interleave.rs:2-32 | interleaving the evens and odds of an even-length slice rebuilds the slice |
| Interleave.DeinterleaveInterleaved | src/dsp/interleave.rs:2-32 | deinterleaving an interleaving of two equal-length channels gives both channels back |
| Interleave.DeinterleaveThenInterleave | src/dsp/interleave.rs:2-32 | deinterleaving into half-length outputs and interleaving back into a full-length output reproduces the input |
| Arc.FillZeroed | src/buffer/shared.rs:48-57 | the storage has exactly n samples: the items in order while they last, zero after, surplus items dropped |
| Arc.UniqueAcrossClone | src/buffer/shared.rs:59-63 | a new storage is unique, is not while a clone lives, and is unique again once the clone is dropped |
| Base.ChannelBuffer.FromMono | src/buffer/base.rs:11-13 | a Mono buffer is not stereo and shows its one channel as both left and right |
| Base.ChannelBuffer.FromStereoDeinterleaved | src/buffer/base.rs:15-17 | a Stereo buffer is stereo, with the given left and right |
| Base.ChannelBuffer.Len | src/buffer/base.rs:19-24 | the frame count is the shorter channel's length |
| Base.ChannelBuffer.Size | src/buffer/base.rs:26-31 | the sample count is the sum of both channels for Stereo and the one channel for Mono; it is never below Len |
| Base.MonoSidesAgree | src/buffer/base.rs:44-56 | for Mono, left, right and the channel coincide and Len equals Size |
| Base.StereoSizeTwiceLen | src/buffer/base.rs:19-31 | with equal channels a Stereo buffer holds twice its frame count |
| Base.ChannelBuffer.IsEmpty | src/buffer/base.rs:33-38 | as written, a buffer is reported empty exactly when its right side is empty; for Stereo the left channel is never looked at |
| Base.ChannelBuffer.IsStereo | src/buffer/base.rs:40-42 | a buffer that is not stereo shows the same channel as left and right |
| Base.ChannelBuffer.Left | src/buffer/base.rs:44-49 | no contract of its own; FromMono, FromStereoDeinterleaved and Base.MonoSidesAgree state what it returns |
| Base.ChannelBuffer.Right | src/buffer/base.rs:51-56 | no contract of its own; FromMono, FromStereoDeinterleaved and Base.MonoSidesAgree state what it returns |
| Base.IsEmptyMissesLeftSample | src/buffer/base.rs:36 | a Stereo buffer with one left sample and no right sample holds one sample but is reported empty |
| Base.BothChannelsEmptyIffNoSamples | src/buffer/base.rs:33-38 | the intended emptiness test holds exactly when the buffer holds no sample |
| Arc.ArcSlice.Acquire | src/buffer/shared.rs:5-6 | a clone of a handle (derived Clone on the Arc) raises the strong count by one |
| Arc.ArcSlice.Release | src/buffer/shared.rs:5-6 | dropping a live handle lowers the strong count by one |
| Arc.ArcSlice.IsUnique | src/buffer/shared.rs:62 | no contract of its own: the strong count is one |
| Shared.SharedBuffer.IsUnique | src/buffer/shared.rs:59-63 | no contract of its own: the storage's strong count is one; Arc.UniqueAcrossClone and Shared.MonoIntoStereoNotUnique state the lifecycle |
| Shared.FromVec | src/buffer/shared.rs:38-43 | a new storage holding the given samples, with one owner |
| Shared.FromIter | src/buffer/shared.rs:48-57 | a new unique storage of exactly numSamples samples, the items first and zeros after |
| Shared.SharedAudioBuffer.FromMono | src/buffer/shared.rs:79-81 | not stereo; both sides lend the one handle's samples |
| Shared.SharedAudioBuffer.FromStereoDeinterleaved | src/buffer/shared.rs:83-85 | stereo; the sides lend the two handles' samples |
| Shared.SharedAudioBuffer.Len | src/buffer/shared.rs:104-109 | the frame count is the shorter side |
| Shared.SharedAudioBuffer.Size | src/buffer/shared.rs:111-116 | both sides summed for Stereo, the one side for Mono, never below Len |
| Shared.SharedAudioBuffer.IsEmpty | src/buffer/shared.rs:118-123 | empty exactly when both sides are empty, and exactly when Size is 0 |
| Shared.SharedAudioBuffer.IsStereo | src/buffer/shared.rs:125-127 | a buffer that is not stereo lends the same slice as left and right |
| Shared.SharedAudioBuffer.IsUnique | src/buffer/shared.rs:129-134 | unique exactly when every storage it points at has strong count one; for Stereo, both channels |
| Shared.SharedAudioBuffer.Left | src/buffer/shared.rs:136-141 | no contract of its own; FromMono, FromStereoDeinterleaved and Shared.MonoSidesAgree state what it lends |
| Shared.SharedAudioBuffer.Right | src/buffer/shared.rs:143-148 | no contract of its own; FromMono, FromStereoDeinterleaved and Shared.MonoSidesAgree state what it lends |
| Shared.MonoSidesAgree | src/buffer/shared.rs:136-148 | a Mono buffer lends the same slice on both sides, and Len equals Size |
| Shared.StereoSizeTwiceLen | src/buffer/shared.rs:104-116 | with equal sides a Stereo buffer holds twice its frame count |
| Shared.FromStereoInterleaved | src/buffer/shared.rs:87-95 | two fresh unique storages holding the even and the odd input samples; the consumed input handle's count drops by one |
| Shared.IntoStereo | src/buffer/shared.rs:97-102 | Stereo passes through untouched; Mono becomes a pair of handles on its one storage, whose count rises by one |
| Shared.CloneAudio | src/buffer/shared.rs:72-73 | a clone equals the buffer, and each storage's count rises by the number of its handles in the buffer |
| Shared.MonoIntoStereoNotUnique | src/buffer/shared.rs:97-102 | after into_stereo of a fresh Mono buffer, both sides share one storage and neither is unique |
| Shared.CanDeinterleaveStereo | src/buffer/shared.rs:155-161 | [1..6] deinterleaves to [1, 3, 5] and [2, 4, 6] |
| Shared.CanInterleaveStereo | src/buffer/shared.rs:163-171 | [1, 3, 5] and [2, 4, 6] interleave to [1..6] |
| Shared.MonoViewDimensions | src/buffer/shared.rs:173-181 | a three-sample Mono buffer has Len 3 and Size 3, is not empty and is not stereo |
| Shared.StereoViewDimensions | src/buffer/shared.rs:183-194 | two three-sample sides give Len 3 and Size 6, not empty, stereo |
| Buffer.SharedBuffer.IsUnique | src/buffer.rs:68-72 | no contract of its own: the storage's strong count is one; Arc.UniqueAcrossClone and Buffer.MonoLeftSharesStorage state the lifecycle |
| Buffer.FromVec | src/buffer.rs:45-50 | a new storage holding the given samples, with one owner |
| Buffer.FromIter | src/buffer.rs:55-66 | a new unique storage of exactly numSamples samples, the items first and zeros after |
| Buffer.SharedAudioBuffer.Len | src/buffer.rs:111-116 | the frame count is the shorter side |
| Buffer.SharedAudioBuffer.Size | src/buffer.rs:118-123 | both sides summed for Stereo, the one side for Mono, never below Len |
| Buffer.SharedAudioBuffer.IsEmpty | src/buffer.rs:125-130 | empty exactly when Size is 0 |
| Buffer.SharedAudioBuffer.IsStereo | src/buffer.rs:132-134 | a buffer that is not stereo hands out the same handle on both sides |
| Buffer.SharedAudioBuffer.IsUnique | src/buffer.rs:136-141 | unique exactly when every storage it points at has strong count one; for Stereo, both channels |
| Buffer.FromMono | src/buffer.rs:88-90 | not stereo; both sides are the given handle |
| Buffer.FromStereoDeinterleaved | src/buffer.rs:92-94 | stereo; the sides are the given handles |
| Buffer.DeinterleaveStereo | src/buffer.rs:172-190 | the two new vectors are the even and the odd samples of the input |
| Buffer.InterleaveStereo | src/buffer.rs:158-170 | the same contract as the interleave_stereo of src/dsp/interleave.rs: out holds the interleaving over the as-written count |
| Buffer.FromStereoInterleaved | src/buffer.rs:96-102 | two fresh unique storages with the even and the odd samples; the consumed input's count drops by one |
| Buffer.IntoStereo | src/buffer.rs:104-109 | Stereo passes through untouched; Mono becomes two handles on one storage whose count rises by one |
| Buffer.Left | src/buffer.rs:143-148 | returns the left handle and bumps its storage's count by one |
| Buffer.Right | src/buffer.rs:150-155 | returns the right handle and bumps its storage's count by one |
| Buffer.MonoLeftSharesStorage | src/buffer.rs:136-148 | a fresh Mono buffer is unique until left() hands out a clone, after which it is not; the clone shows the same samples |
| Buffer.CanDeinterleaveStereo | src/buffer.rs:196-202 | [1..6] deinterleaves to [1, 3, 5] and [2, 4, 6] |
| Buffer.CanInterleaveStereo | src/buffer.rs:204-212 | [1, 3, 5] and [2, 4, 6] interleave to [1..6] |
| Buffer.MonoViewDimensions | src/buffer.rs:214-222 | a three-sample Mono buffer has Len 3 and Size 3, is not empty and is not stereo |
| Buffer.StereoViewDimensions | src/buffer.rs:224-235 | two three-sample sides give Len 3 and Size 6, not empty, stereo |
| File.ReadOnceProgress | src/file.rs:11 | a successful non-empty read uses up part of the reader's script, so the hashing loop terminates |
| File.FedUnfold | src/file.rs:11-16 | a failed read or a read of 0 bytes ends the feed; a non-empty read feeds its bytes and the loop continues on the rest |
| File.FedIgnoresCapacity | src/file.rs:8-19 | for any non-zero buffer length, the bytes fed to the hasher are exactly the file's stream, up to its end or first failing read |
| File.FedOneRun | src/file.rs:8-19 | a reader over one non-empty run, with a non-zero buffer, feeds exactly that run |
| File.EmptyBufferFeedsNothing | src/file.rs:11-13 | with a zero-length buffer the first read returns 0 bytes or fails, so nothing is fed |
| File.StreamAfterPartialRead | src/file.rs:11-15 | a read that takes only part of a run leaves the rest in front, and the stream is unchanged |
| File.StreamStopsAtFirstFailure | src/file.rs:11-16 | non-empty runs followed by an error or end of file deliver exactly their concatenation; nothing after the stop is read |
| File.Reader.Read | src/file.rs:11 | a read fills buf[..n] with the next bytes of the script and leaves the rest of buf alone, or reports the error and leaves buf alone |
| File.Hash | src/file.rs:8-19 | always Ok, with the CRC-32 of exactly the bytes read before the first 0-byte or failing read |
| File.HashFileContents | src/file.rs:21-24 | fails exactly when the open fails, with its error; otherwise the hash of the opened file's reads |
| File.HashTest | src/file.rs:51-64 | with a 1024-byte buffer "hello world" hashes to 0x0D4A1185 and "world, hello " does not |
| File.HashFileContentsTest | src/file.rs:66-78 | a file holding "hello world", hashed through a 1024-byte buffer, gives 0x0D4A1185 |
| Manifest.FeedEntriesIsUpdate | src/sample_pool/manifest.rs:21-22 | hashing the entries one after another equals one update with their concatenated bytes |
| Manifest.EntriesBytesConcat | src/sample_pool/manifest.rs:5-11 | the byte stream of a + b is that of a followed by that of b |
| Manifest.New | src/sample_pool/manifest.rs:20-25 | the entries are kept as given, and the hash is the CRC-32 of their byte stream |
| Manifest.NewFoldsInOrder | src/sample_pool/manifest.rs:20-25 | the aggregate hash of a + b continues from the hasher state a leaves behind |
| Manifest.NewOfPair | src/sample_pool/manifest.rs:20-25 | the hash of a two-entry manifest is the CRC-32 of the first entry's bytes followed by the second's |
| Manifest.EntryOrderMatters | src/sample_pool/manifest.rs:20-25 | the aggregate hash depends on entry order: two entries that differ only in size give 0xCDEF2485 in one order and 0x34FBAC36 in the other |
| Pool.FromDecoderError | src/sample_pool/pool.rs:16-25 | decoder errors map to FormatError, FileError or InvalidFormat, never to EmptySample or InvalidChannelCount |
| Pool.LoaderFor | src/sample_pool/pool.rs:98-103 | a loader exists exactly for 32-bit float, 16-bit int and 24-bit int |
| Pool.F32PassesThrough | src/sample_pool/pool.rs:167-177 | load_f32_wav pushes a decoded f32 unchanged, whatever the i16/i24 scaling is |
| Pool.F32KeepsPatterns | src/sample_pool/pool.rs:167-177 | a Float file whose items all decode loads exactly its f32 values, in order |
| Pool.Kept | src/sample_pool/pool.rs:166-206 | the loaded samples number the successfully decoded items, never more than the stream |
| Pool.KeptConcat | src/sample_pool/pool.rs:169-175 | the loader works item by item: a split stream loads as its two parts in order |
| Pool.KeptAllOk | src/sample_pool/pool.rs:169-175 | with no decode failures every item is kept, converted (unchanged for f32, scaled for i16 and i24), at its own position |
| Pool.LoadWav | src/sample_pool/pool.rs:166-206 | a fresh storage with one owner holding the successfully decoded items, in order: f32 items unchanged, i16 and i24 items scaled |
| Pool.Admit | src/sample_pool/pool.rs:94-116 | an admitted file never yields an empty buffer |
| Pool.AdmitOutcomes | src/sample_pool/pool.rs:94-116 | the checks in the order add_sample makes them: open error, InvalidFormat, InvalidChannelCount, then EmptySample (Mono with no kept samples, Stereo with fewer than two), otherwise the Mono channel or the even/odd split |
| Pool.StereoNeedsTwoDecodedSamples | src/sample_pool/pool.rs:109-115 | a two-channel file with fewer than two successfully decoded samples is refused as EmptySample |
| Pool.SampleRateOnlyWarns | src/sample_pool/pool.rs:105-107 | changing only the sample rate of a file changes nothing about its admission |
| Pool.HoldsSameSize | src/sample_pool/pool.rs:109-115 | a buffer holding decoded channels has their size, and is empty exactly when they are |
| Pool.LoadBuffer | src/sample_pool/pool.rs:95-113 | a decode error is reported as is; otherwise a fresh, unique buffer holding the decoded channels |
| Pool.SizeSumRemove | src/sample_pool/pool.rs:146-148 | the summed size does not depend on which buffer is counted first |
| Pool.InsertGrowsAccounting | src/sample_pool/pool.rs:159-161 | inserting under a new id adds one sample and that buffer's size |
| Pool.RemoveShrinksAccounting | src/sample_pool/pool.rs:128 | removing a present id takes off one sample and its buffer's size |
| Pool.FilesStep | src/sample_pool/pool.rs:159-161 | filing the next path under an id not in use keeps the files relation |
| Pool.ProgressStep | src/sample_pool/pool.rs:84-90 | one visit of the walk either changes nothing or files the path under a new id, keeping every earlier sample |
| Pool.FreshId | src/sample_pool/pool.rs:159 | the new id is not already in use |
| Pool.ChosenIff | src/sample_pool/pool.rs:84-90 | a path is chosen exactly when it is among the first n and has a true verdict there |
| Pool.AcceptedIffAdmitted | src/sample_pool/pool.rs:84-90 | a path ends up in the pool exactly when it is in the walk, has the wav extension and add_sample admits it |
| Pool.FirstFailureNoneIffAllAdmitted | src/sample_pool/pool.rs:46-54 | there is no refusal exactly when every entry path is admitted |
| Pool.FirstFailureStep | src/sample_pool/pool.rs:50-53 | the search for the first refusal stops at a refused path and moves past an admitted one |
| Pool.ZeroCapacityHashIsZero | src/sample_pool/pool.rs:58-64 | through a zero-length buffer every file's content hash is 0 |
| Pool.PositiveCapacityHashesStream | src/sample_pool/pool.rs:64 | through any non-empty buffer the content hash is the CRC-32 of the file's whole stream |
| Pool.ZeroCapacityMissesContent | src/sample_pool/pool.rs:58 | for a file holding "hello world", a zero-length buffer gives 0 where a 4096-byte one gives 0x0D4A1185 |
| Pool.EnumeratedStep | src/sample_pool/pool.rs:60 | visiting one more id not visited before keeps the visited ids distinct |
| Pool.BuiltStep | src/sample_pool/pool.rs:60-71 | visiting one more id whose file opens extends the entry listing by exactly that id's entry |
| Pool.SamplePool.constructor | src/sample_pool/pool.rs:39-43 | the default pool is empty and valid |
| Pool.SamplePool.InsertSample | src/sample_pool/pool.rs:150-163 | an empty buffer is refused with EmptySample and nothing changes; otherwise both maps gain the buffer and path under one id not in use, the count grows by one and live memory by the buffer's size |
| Pool.SamplePool.AddSample | src/sample_pool/pool.rs:94-116 | a refused path leaves the pool unchanged and returns Admit's error; an admitted one is stored under a new id in fresh, unique storage holding the decoded channels, and nothing else changes |
| Pool.SamplePool.RemoveSample | src/sample_pool/pool.rs:118-130 | the id leaves both maps and nothing else changes; an absent id changes nothing; a present one lowers the count by one and live memory by its size |
| Pool.SamplePool.Sample | src/sample_pool/pool.rs:138-140 | None for an unknown id; otherwise a clone of the stored buffer, each of its storages counting one more handle per handle the buffer has |
| Pool.SamplePool.SampleCount | src/sample_pool/pool.rs:142-144 | in a valid pool, the number of samples is the number of files tracked |
| Pool.SamplePool.LiveMemory | src/sample_pool/pool.rs:146-148 | the sizes of all stored buffers, summed |
| Pool.SamplePool.HashEntries | src/sample_pool/pool.rs:57-73 | every id is visited once in some order; the result is the manifest of their entries, hashed through the buffer, or the open error of the first file that fails |
| Pool.SamplePool.BuildManifest | src/sample_pool/pool.rs:56-74 | as written: the manifest of every file, each listed once in some order, but every entry's hash is 0; on failure, the files before the failing one all opened |
| Pool.SamplePool.BuildManifestSized | src/sample_pool/pool.rs:56-74 | with a 4096-byte buffer: every file listed once, and every entry's hash is the CRC-32 of its file's content; on failure, the open error of the first file that fails |
| Pool.SamplePool.Visit | src/sample_pool/pool.rs:84-90 | a wav path that add_sample admits is added under a new id; any other path, or a refusal, leaves the pool unchanged |
| Pool.SamplePool.AddSamples | src/sample_pool/pool.rs:82-92 | exactly the accepted paths of the walk are filed under new ids, in walk order; earlier samples are kept; a walk ending in NotFound reports FileError, through the From<io::Error> conversion of src/sample_pool/pool.rs:27-34 |
| Pool.FromDir | src/sample_pool/pool.rs:76-80 | fails exactly when the walk ends in an error, with that error converted (NotFound to FileError); otherwise a new valid pool holding exactly the accepted paths of the walk |
| Pool.LoadedStep | src/sample_pool/pool.rs:50-53 | one more admitted entry path, filed under a new id, keeps the load relation |
| Pool.AddInOrder | src/sample_pool/pool.rs:50-53 | the paths go through add_sample in order; the result is the error of the first refused path, or none, in which case path k is filed under ids[k] and the pool stays valid |
| Pool.FromManifest | src/sample_pool/pool.rs:46-54 | the first refused entry path aborts with its error; otherwise a new valid pool in which entry k became sample ids[k] |

## Left out

- Directory traversal (`walk_dir`, src/file.rs:26-41) is an input. It is the sequence of file paths it reports before it ends, in order, plus the I/O error it ends with, if any. The filesystem itself, symlinks and directory order are not part of this model.
- WAV decoding (the hound crate) is an input. Each path maps to the decoder's header fields and to the per-item decode outcomes of its sample stream.
- The f32 scaling of i16 and i24 samples is an opaque function. Samples are f32 bit patterns, and no floating-point arithmetic is modelled. f32 samples are not scaled: they pass through unchanged.
- The `log::warn!` on a sample rate other than 48 kHz (src/sample_pool/pool.rs:105-107) is not modelled: it is logging only, and Pool.SampleRateOnlyWarns shows the rate does not affect the outcome.
- `uuid::Uuid::new_v4` is modelled as "some id not in use". Randomness and the 128-bit width are not modelled.
- The `From<hound::Error>` catch-all arm (`todo!()`) is not modelled. Decoder errors are restricted to the three handled kinds.
- Pool.SamplePool.RemoveSample: the `todo!` panic for a shared sample is a precondition, so that call is not modelled.
- Arc strong counts are a plain field. Atomicity, weak references and deallocation are not modelled.
- `SamplePool::samples()` (src/sample_pool/pool.rs:132-136) is not modelled. It is a lazy iterator over `(id, clone)` pairs whose effect on counts is that of `sample` for each id.
- HashMap iteration order is modelled as an arbitrary order. `build_manifest` is specified for whichever order it visits the ids in.
- The `Hash` byte layout of a `PathBuf` is simplified to its raw bytes followed by their length. std's component-wise path hashing is not part of this model. The usize and u32 fields are written as the derived `Hash` writes them on a 64-bit little-endian target (8-byte and 4-byte little-endian); the aggregate hash of a 32-bit or big-endian target differs.
- The CRC-32 implementation strategy of crc32fast (tables, SIMD) is not modelled, only the function it computes.
- `Manifest::from_file` and `Manifest::save` (serde JSON I/O) are not modelled.
- Pool.FromDir: does not restate, for each id, which decoded buffer it holds. Pool.SamplePool.AddSample states that for one path, and AddSamples and FromDir state the files relation and the count.
- Pool.FromManifest: the same; it states the files relation, the count and validity, not the buffer contents of each id.
- Pool.SamplePool.AddSamples, Pool.FromDir: the `todo!()` panic of `From<io::Error>` for any error kind other than NotFound (src/sample_pool/pool.rs:31) is a precondition, so a walk ending in such an error is not modelled. A walk that ends in an error visits every path it reported before the error, and the samples added for them stay in the pool.
- src/play.rs, src/plot.rs, the CLI example and the benches are not part of this model.

## Findings

| source | as written | input that shows it | evidently intended | confidence | as-written member | corrected member |
|---|---|---|---|---|---|---|
| src/dsp/interleave.rs:4 | the frame count is min(\|l\|, \|r\|, \|out\|), so an output shorter than twice the shorter channel is overrun | l = r = [a, b], out of length 2: the count is 2 and index 2 is written | the count is also bounded by \|out\| / 2 | not executed | Interleave.InterleaveCountOverrunsOutput | Interleave.InterleaveStereoClamped |
| src/buffer/base.rs:36 | the Stereo arm tests the right channel twice, so a Stereo buffer with samples only on the left is reported empty | Stereo([x], []) | both channels are tested | not executed | Base.IsEmptyMissesLeftSample | Base.BothChannelsEmptyIffNoSamples |
| src/sample_pool/pool.rs:58 | the hashing buffer is `Vec::with_capacity(4096)`, whose length is 0, so every read returns 0 bytes and every entry hash is 0 | a pool holding a file of "hello world": the entry hash is 0, not 0x0D4A1185 | a buffer of length 4096 | not executed | Pool.ZeroCapacityMissesContent | Pool.SamplePool.BuildManifestSized |
