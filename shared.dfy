/**
 * The current generation of the buffer module, src/buffer/shared.rs: a
 * SharedBuffer is a handle on reference-counted immutable samples, and a
 * SharedAudioBuffer is Mono or Stereo over such handles. Its left and right
 * accessors lend slices (no count changes) and from_stereo_interleaved runs
 * the in-place transform of src/dsp/interleave.rs. This is the generation
 * the sample pool stores.
 */
module Shared {
  import opened Arc
  import Interleave

  /** A handle on shared storage; each value of this type is one strong reference. */
  datatype SharedBuffer = SharedBuffer(arc: ArcSlice) {

    /** The samples, as the handle's slice view (AsRef / Deref). */
    function Data(): seq<Sample> {
      arc.data
    }

    /** is_unique (src/buffer/shared.rs:59-63): no other handle shares the storage. */
    predicate IsUnique()
      reads arc
    {
      arc.IsUnique()
    }
  }

  /** From<Vec<f32>> and the other From conversions: a new storage with one owner. */
  method FromVec(data: seq<Sample>) returns (b: SharedBuffer)
    ensures fresh(b.arc) && b.arc.strong == 1
    ensures b.Data() == data
  {
    var arc := new ArcSlice(data);
    b := SharedBuffer(arc);
  }

  /**
   * SharedBuffer::from_iter (src/buffer/shared.rs:48-57): exactly numSamples
   * samples, the items first and zeros after, in a storage nobody else holds.
   */
  method FromIter(items: seq<Sample>, numSamples: nat) returns (b: SharedBuffer)
    ensures fresh(b.arc) && b.IsUnique()
    ensures b.Data() == ZeroFilled(items, numSamples)
  {
    var data := FillZeroed(items, numSamples);
    b := FromVec(data);
  }

  datatype SharedStereoBuffer = SharedStereoBuffer(l: SharedBuffer, r: SharedBuffer)

  datatype SharedAudioBuffer = Mono(mono: SharedBuffer) | Stereo(stereo: SharedStereoBuffer) {

    /** The storages this buffer's handles point at. */
    function Arcs(): set<ArcSlice> {
      match this
      case Mono(b) => {b.arc}
      case Stereo(s) => {s.l.arc, s.r.arc}
    }

    /** from_mono (src/buffer/shared.rs:79-81). */
    static function FromMono(data: SharedBuffer): (b: SharedAudioBuffer)
      ensures !b.IsStereo() && b.Left() == data.Data() && b.Right() == data.Data()
    {
      Mono(data)
    }

    /** from_stereo_deinterleaved (src/buffer/shared.rs:83-85). */
    static function FromStereoDeinterleaved(l: SharedBuffer, r: SharedBuffer): (b: SharedAudioBuffer)
      ensures b.IsStereo() && b.Left() == l.Data() && b.Right() == r.Data()
    {
      Stereo(SharedStereoBuffer(l, r))
    }

    /** len (src/buffer/shared.rs:104-109): the frames both sides can deliver. */
    function Len(): (n: nat)
      ensures n <= |Left()| && n <= |Right()|
      ensures n == |Left()| || n == |Right()|
    {
      match this
      case Mono(b) => |b.Data()|
      case Stereo(s) => Interleave.Min(|s.l.Data()|, |s.r.Data()|)
    }

    /** size (src/buffer/shared.rs:111-116): the samples held over all channels. */
    function Size(): (n: nat)
      ensures n >= Len()
      ensures IsStereo() ==> n == |Left()| + |Right()|
      ensures !IsStereo() ==> n == |Left()|
    {
      match this
      case Mono(b) => |b.Data()|
      case Stereo(s) => |s.l.Data()| + |s.r.Data()|
    }

    /** is_empty (src/buffer/shared.rs:118-123): Stereo is empty only when both channels are. */
    predicate IsEmpty()
      ensures IsEmpty() <==> Left() == [] && Right() == []
      ensures IsEmpty() <==> Size() == 0
    {
      match this
      case Mono(b) => |b.Data()| == 0
      case Stereo(s) => |s.l.Data()| == 0 && |s.r.Data()| == 0
    }

    /** is_stereo (src/buffer/shared.rs:125-127): a buffer that is not stereo lends one slice on both sides. */
    predicate IsStereo()
      ensures !IsStereo() ==> Left() == Right()
    {
      !Mono?
    }

    /**
     * is_unique (src/buffer/shared.rs:129-134): Stereo needs both channels
     * unique, so the buffer is unique exactly when every storage it points at
     * has a single owner.
     */
    predicate IsUnique()
      reads Arcs()
      ensures IsUnique() <==> forall a :: a in Arcs() ==> a.strong == 1
    {
      match this
      case Mono(b) => b.IsUnique()
      case Stereo(s) => s.l.IsUnique() && s.r.IsUnique()
    }

    /** left (src/buffer/shared.rs:136-141): a borrowed slice, no count changes. */
    function Left(): seq<Sample>
    {
      match this
      case Mono(b) => b.Data()
      case Stereo(s) => s.l.Data()
    }

    /** right (src/buffer/shared.rs:143-148): a borrowed slice, no count changes. */
    function Right(): seq<Sample>
    {
      match this
      case Mono(b) => b.Data()
      case Stereo(s) => s.r.Data()
    }
  }

  /** A Mono buffer lends the same slice on both sides. */
  lemma MonoSidesAgree(b: SharedAudioBuffer)
    requires !b.IsStereo()
    ensures b.Left() == b.Right()
    ensures b.Len() == b.Size()
  {
  }

  /** With equal channels a Stereo buffer holds twice its frame count. */
  lemma StereoSizeTwiceLen(b: SharedAudioBuffer)
    requires b.IsStereo() && |b.Left()| == |b.Right()|
    ensures b.Size() == 2 * b.Len()
  {
  }

  /**
   * from_stereo_interleaved (src/buffer/shared.rs:87-95): two zeroed outputs
   * of |data| / 2 samples each, which is what the in-place deinterleave
   * needs, filled with the even and the odd samples and frozen into new
   * storages. The input handle is consumed and dropped.
   */
  method FromStereoInterleaved(data: SharedBuffer) returns (b: SharedAudioBuffer)
    requires data.arc.strong >= 1
    modifies data.arc
    ensures b.IsStereo() && fresh(b.Arcs()) && b.IsUnique()
    ensures b.Left() == Interleave.Evens(data.Data())
    ensures b.Right() == Interleave.Odds(data.Data())
    ensures data.arc.strong == old(data.arc.strong) - 1
  {
    var len := |data.Data()| / 2;
    var l := new Sample[len](_ => ZERO);
    var r := new Sample[len](_ => ZERO);
    Interleave.DeinterleaveStereo(data.Data(), l, r);
    data.arc.Release();
    var lb := FromVec(l[..]);
    var rb := FromVec(r[..]);
    b := Stereo(SharedStereoBuffer(lb, rb));
  }

  /**
   * into_stereo (src/buffer/shared.rs:97-102): Stereo passes through; Mono
   * becomes a pair of handles on its one storage, which one clone more
   * shares.
   */
  method IntoStereo(b: SharedAudioBuffer) returns (s: SharedStereoBuffer)
    modifies b.Arcs()
    ensures b.Stereo? ==> s == b.stereo && unchanged(b.Arcs())
    ensures b.Mono? ==> s.l == b.mono && s.r == b.mono
    ensures b.Mono? ==> b.mono.arc.strong == old(b.mono.arc.strong) + 1
  {
    match b
    case Mono(m) =>
      m.arc.Acquire();
      s := SharedStereoBuffer(m, m);
    case Stereo(st) =>
      s := st;
  }

  /** The number of handles of b that point at storage a. */
  function HandlesOn(b: SharedAudioBuffer, a: ArcSlice): nat {
    match b
    case Mono(m) => if m.arc == a then 1 else 0
    case Stereo(s) => (if s.l.arc == a then 1 else 0) + (if s.r.arc == a then 1 else 0)
  }

  /** The derived Clone of SharedAudioBuffer: every handle is cloned. */
  method CloneAudio(b: SharedAudioBuffer) returns (c: SharedAudioBuffer)
    modifies b.Arcs()
    ensures c == b
    ensures forall a :: a in b.Arcs() ==> a.strong == old(a.strong) + HandlesOn(b, a)
  {
    c := b;
    match b
    case Mono(m) =>
      m.arc.Acquire();
    case Stereo(s) =>
      s.l.arc.Acquire();
      s.r.arc.Acquire();
  }

  /** A Mono buffer made stereo by into_stereo: neither side is unique any more. */
  method MonoIntoStereoNotUnique(data: seq<Sample>) returns (leftUnique: bool, rightUnique: bool, sameStorage: bool)
    ensures !leftUnique && !rightUnique && sameStorage
  {
    var m := FromVec(data);
    var s := IntoStereo(SharedAudioBuffer.FromMono(m));
    leftUnique, rightUnique := s.l.IsUnique(), s.r.IsUnique();
    sameStorage := s.l.arc == s.r.arc;
  }

  /** The can_deinterleave_stereo test (src/buffer/shared.rs:155-161). */
  method CanDeinterleaveStereo() returns (left: seq<Sample>, right: seq<Sample>)
    ensures left == [ONE, THREE, FIVE]
    ensures right == [TWO, FOUR, SIX]
  {
    var input := FromVec([ONE, TWO, THREE, FOUR, FIVE, SIX]);
    var output := FromStereoInterleaved(input);
    left, right := output.Left(), output.Right();
  }

  /** The can_interleave_stereo test (src/buffer/shared.rs:163-171). */
  method CanInterleaveStereo() returns (output: seq<Sample>)
    ensures output == [ONE, TWO, THREE, FOUR, FIVE, SIX]
  {
    var l := FromVec([ONE, THREE, FIVE]);
    var r := FromVec([TWO, FOUR, SIX]);
    var input := SharedAudioBuffer.FromStereoDeinterleaved(l, r);
    var out := new Sample[6](_ => ZERO);
    Interleave.InterleaveStereo(input.Left(), input.Right(), out);
    output := out[..];
  }

  /** The mono_view_has_correct_dimensions test (src/buffer/shared.rs:173-181). */
  method MonoViewDimensions(fill: Sample) returns (len: nat, size: nat, empty: bool, stereo: bool)
    ensures len == 3 && size == 3 && !empty && !stereo
  {
    var m := FromVec([fill, fill, fill]);
    var buf := SharedAudioBuffer.FromMono(m);
    len, size, empty, stereo := buf.Len(), buf.Size(), buf.IsEmpty(), buf.IsStereo();
  }

  /** The stereo_view_has_correct_dimensions test (src/buffer/shared.rs:183-194). */
  method StereoViewDimensions(fill: Sample) returns (len: nat, size: nat, empty: bool, stereo: bool)
    ensures len == 3 && size == 6 && !empty && stereo
  {
    var l := FromVec([fill, fill, fill]);
    var r := FromVec([fill, fill, fill]);
    var buf := SharedAudioBuffer.FromStereoDeinterleaved(l, r);
    len, size, empty, stereo := buf.Len(), buf.Size(), buf.IsEmpty(), buf.IsStereo();
  }
}
