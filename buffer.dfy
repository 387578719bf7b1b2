/**
 * The first generation of the buffer module, src/buffer.rs. Same shapes as
 * src/buffer/shared.rs, with two differences the model keeps: left() and
 * right() hand out clones (each bumps a reference count), and
 * from_stereo_interleaved uses a local deinterleave that returns two new
 * vectors. The file also carries its own copy of interleave_stereo.
 */
module Buffer {
  import opened Arc
  import Interleave

  /** A handle on shared storage; each value of this type is one strong reference. */
  datatype SharedBuffer = SharedBuffer(data: ArcSlice) {

    function Samples(): seq<Sample> {
      data.data
    }

    /** is_unique (src/buffer.rs:68-72): the strong count is one. */
    predicate IsUnique()
      reads data
    {
      data.IsUnique()
    }
  }

  /** From<Vec<f32>> and the other From conversions: a new storage with one owner. */
  method FromVec(samples: seq<Sample>) returns (b: SharedBuffer)
    ensures fresh(b.data) && b.data.strong == 1
    ensures b.Samples() == samples
  {
    var arc := new ArcSlice(samples);
    b := SharedBuffer(arc);
  }

  /**
   * SharedBuffer::from_iter (src/buffer.rs:55-66): exactly numSamples
   * samples, the items first and zeros after, in a storage nobody else holds.
   */
  method FromIter(items: seq<Sample>, numSamples: nat) returns (b: SharedBuffer)
    ensures fresh(b.data) && b.IsUnique()
    ensures b.Samples() == ZeroFilled(items, numSamples)
  {
    var samples := FillZeroed(items, numSamples);
    b := FromVec(samples);
  }

  datatype SharedStereoBuffer = SharedStereoBuffer(l: SharedBuffer, r: SharedBuffer)

  datatype SharedAudioBuffer = Mono(mono: SharedBuffer) | Stereo(stereo: SharedStereoBuffer) {

    /** The storages this buffer's handles point at. */
    function Arcs(): set<ArcSlice> {
      match this
      case Mono(b) => {b.data}
      case Stereo(s) => {s.l.data, s.r.data}
    }

    /** The handle left() clones: the one channel of Mono, the left one of Stereo. */
    function LeftHandle(): SharedBuffer {
      match this
      case Mono(b) => b
      case Stereo(s) => s.l
    }

    /** The handle right() clones: the one channel of Mono, the right one of Stereo. */
    function RightHandle(): SharedBuffer {
      match this
      case Mono(b) => b
      case Stereo(s) => s.r
    }

    /** len (src/buffer.rs:111-116): the frames both sides can deliver. */
    function Len(): (n: nat)
      ensures n <= |LeftHandle().Samples()| && n <= |RightHandle().Samples()|
      ensures n == |LeftHandle().Samples()| || n == |RightHandle().Samples()|
    {
      match this
      case Mono(b) => |b.Samples()|
      case Stereo(s) => Interleave.Min(|s.l.Samples()|, |s.r.Samples()|)
    }

    /** size (src/buffer.rs:118-123): the samples held over all channels. */
    function Size(): (n: nat)
      ensures n >= Len()
      ensures Stereo? ==> n == |LeftHandle().Samples()| + |RightHandle().Samples()|
      ensures Mono? ==> n == |LeftHandle().Samples()|
    {
      match this
      case Mono(b) => |b.Samples()|
      case Stereo(s) => |s.l.Samples()| + |s.r.Samples()|
    }

    /** is_empty (src/buffer.rs:125-130): Stereo is empty only when both channels are. */
    predicate IsEmpty()
      ensures IsEmpty() <==> Size() == 0
    {
      match this
      case Mono(b) => |b.Samples()| == 0
      case Stereo(s) => |s.l.Samples()| == 0 && |s.r.Samples()| == 0
    }

    /** is_stereo (src/buffer.rs:132-134). */
    predicate IsStereo()
      ensures !IsStereo() ==> LeftHandle() == RightHandle()
    {
      !Mono?
    }

    /**
     * is_unique (src/buffer.rs:136-141): Stereo needs both channels unique,
     * so the buffer is unique exactly when every storage it points at has a
     * single owner.
     */
    predicate IsUnique()
      reads Arcs()
      ensures IsUnique() <==> forall a :: a in Arcs() ==> a.strong == 1
    {
      match this
      case Mono(b) => b.IsUnique()
      case Stereo(s) => s.l.IsUnique() && s.r.IsUnique()
    }
  }

  /** from_mono (src/buffer.rs:88-90). */
  function FromMono(data: SharedBuffer): (b: SharedAudioBuffer)
    ensures !b.IsStereo() && b.LeftHandle() == data && b.RightHandle() == data
  {
    Mono(data)
  }

  /** from_stereo_deinterleaved (src/buffer.rs:92-94). */
  function FromStereoDeinterleaved(l: SharedBuffer, r: SharedBuffer): (b: SharedAudioBuffer)
    ensures b.IsStereo() && b.LeftHandle() == l && b.RightHandle() == r
  {
    Stereo(SharedStereoBuffer(l, r))
  }

  /**
   * deinterleave_stereo (src/buffer.rs:172-190): two new vectors of
   * |buffer| / 2 samples, the even and the odd samples of the input; a
   * trailing odd sample is dropped.
   */
  method DeinterleaveStereo(buffer: seq<Sample>) returns (left: seq<Sample>, right: seq<Sample>)
    ensures left == Interleave.Evens(buffer)
    ensures right == Interleave.Odds(buffer)
  {
    var numSamples := |buffer| / 2;
    var l := new Sample[numSamples](_ => ZERO);
    for sample := 0 to numSamples
      invariant forall i :: 0 <= i < sample ==> l[i] == buffer[2 * i]
    {
      l[sample] := buffer[sample * 2];
    }
    var r := new Sample[numSamples](_ => ZERO);
    for sample := 0 to numSamples
      invariant forall i :: 0 <= i < numSamples ==> l[i] == buffer[2 * i]
      invariant forall i :: 0 <= i < sample ==> r[i] == buffer[2 * i + 1]
    {
      r[sample] := buffer[sample * 2 + 1];
    }
    left, right := l[..], r[..];
  }

  /**
   * interleave_stereo (src/buffer.rs:158-170), the file's own copy of the
   * routine in src/dsp/interleave.rs, with the same count and the same
   * in-bounds condition.
   */
  method InterleaveStereo(l: seq<Sample>, r: seq<Sample>, output: array<Sample>)
    requires 2 * Interleave.InterleaveCount(|l|, |r|, output.Length) <= output.Length
    modifies output
    ensures output[..] == Interleave.InterleavedInto(l, r, old(output[..]), Interleave.InterleaveCount(|l|, |r|, output.Length))
  {
    Interleave.InterleaveStereo(l, r, output);
  }

  /**
   * from_stereo_interleaved (src/buffer.rs:96-102): deinterleave into two new
   * vectors and freeze each into its own storage. The input handle is
   * consumed and dropped.
   */
  method FromStereoInterleaved(data: SharedBuffer) returns (b: SharedAudioBuffer)
    requires data.data.strong >= 1
    modifies data.data
    ensures b.IsStereo() && fresh(b.Arcs()) && b.IsUnique()
    ensures b.LeftHandle().Samples() == Interleave.Evens(data.Samples())
    ensures b.RightHandle().Samples() == Interleave.Odds(data.Samples())
    ensures data.data.strong == old(data.data.strong) - 1
  {
    var l, r := DeinterleaveStereo(data.Samples());
    data.data.Release();
    var lb := FromVec(l);
    var rb := FromVec(r);
    b := Stereo(SharedStereoBuffer(lb, rb));
  }

  /**
   * into_stereo (src/buffer.rs:104-109): Stereo passes through; Mono becomes
   * a pair of handles on its one storage, which one clone more shares.
   */
  method IntoStereo(b: SharedAudioBuffer) returns (s: SharedStereoBuffer)
    modifies b.Arcs()
    ensures b.Stereo? ==> s == b.stereo && unchanged(b.Arcs())
    ensures b.Mono? ==> s.l == b.mono && s.r == b.mono
    ensures b.Mono? ==> b.mono.data.strong == old(b.mono.data.strong) + 1
  {
    match b
    case Mono(m) =>
      m.data.Acquire();
      s := SharedStereoBuffer(m, m);
    case Stereo(st) =>
      s := st;
  }

  /** left (src/buffer.rs:143-148): a clone of the left handle, one count more on it. */
  method Left(b: SharedAudioBuffer) returns (c: SharedBuffer)
    modifies b.LeftHandle().data
    ensures c == b.LeftHandle()
    ensures c.data.strong == old(c.data.strong) + 1
  {
    c := b.LeftHandle();
    c.data.Acquire();
  }

  /** right (src/buffer.rs:150-155): a clone of the right handle, one count more on it. */
  method Right(b: SharedAudioBuffer) returns (c: SharedBuffer)
    modifies b.RightHandle().data
    ensures c == b.RightHandle()
    ensures c.data.strong == old(c.data.strong) + 1
  {
    c := b.RightHandle();
    c.data.Acquire();
  }

  /**
   * Taking left() of a freshly built Mono buffer: the clone and the buffer
   * share one storage, so the buffer is no longer unique.
   */
  method MonoLeftSharesStorage(samples: seq<Sample>) returns (uniqueBefore: bool, uniqueAfter: bool, same: seq<Sample>)
    ensures uniqueBefore && !uniqueAfter
    ensures same == samples
  {
    var m := FromVec(samples);
    var b := FromMono(m);
    uniqueBefore := b.IsUnique();
    var l := Left(b);
    uniqueAfter := b.IsUnique();
    same := l.Samples();
  }

  /** The can_deinterleave_stereo test (src/buffer.rs:196-202). */
  method CanDeinterleaveStereo() returns (left: seq<Sample>, right: seq<Sample>)
    ensures left == [ONE, THREE, FIVE]
    ensures right == [TWO, FOUR, SIX]
  {
    var input := FromVec([ONE, TWO, THREE, FOUR, FIVE, SIX]);
    var output := FromStereoInterleaved(input);
    var l := Left(output);
    var r := Right(output);
    left, right := l.Samples(), r.Samples();
  }

  /** The can_interleave_stereo test (src/buffer.rs:204-212). */
  method CanInterleaveStereo() returns (output: seq<Sample>)
    ensures output == [ONE, TWO, THREE, FOUR, FIVE, SIX]
  {
    var l := FromVec([ONE, THREE, FIVE]);
    var r := FromVec([TWO, FOUR, SIX]);
    var input := FromStereoDeinterleaved(l, r);
    var left := Left(input);
    var right := Right(input);
    var out := new Sample[6](_ => ZERO);
    InterleaveStereo(left.Samples(), right.Samples(), out);
    output := out[..];
  }

  /** The mono_view_has_correct_dimensions test (src/buffer.rs:214-222). */
  method MonoViewDimensions(fill: Sample) returns (len: nat, size: nat, empty: bool, stereo: bool)
    ensures len == 3 && size == 3 && !empty && !stereo
  {
    var m := FromVec([fill, fill, fill]);
    var buf := FromMono(m);
    len, size, empty, stereo := buf.Len(), buf.Size(), buf.IsEmpty(), buf.IsStereo();
  }

  /** The stereo_view_has_correct_dimensions test (src/buffer.rs:224-235). */
  method StereoViewDimensions(fill: Sample) returns (len: nat, size: nat, empty: bool, stereo: bool)
    ensures len == 3 && size == 6 && !empty && stereo
  {
    var l := FromVec([fill, fill, fill]);
    var r := FromVec([fill, fill, fill]);
    var buf := FromStereoDeinterleaved(l, r);
    len, size, empty, stereo := buf.Len(), buf.Size(), buf.IsEmpty(), buf.IsStereo();
  }
}
