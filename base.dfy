/**
 * The generic channel container of src/buffer/base.rs: ChannelBuffer<T> is
 * Mono(T) or Stereo((T, T)), where T gives a slice of samples. The model
 * represents each channel by that slice.
 */
module Base {

  datatype ChannelBuffer<S> = Mono(channel: seq<S>) | Stereo(l: seq<S>, r: seq<S>) {

    /** from_mono (src/buffer/base.rs:11-13). */
    static function FromMono(data: seq<S>): (b: ChannelBuffer<S>)
      ensures !b.IsStereo() && b.Left() == data && b.Right() == data
    {
      Mono(data)
    }

    /** from_stereo_deinterleaved (src/buffer/base.rs:15-17). */
    static function FromStereoDeinterleaved(left: seq<S>, right: seq<S>): (b: ChannelBuffer<S>)
      ensures b.IsStereo() && b.Left() == left && b.Right() == right
    {
      Stereo(left, right)
    }

    /** The number of frames both channels can deliver. */
    function Len(): (n: nat)
      ensures n <= |Left()| && n <= |Right()|
      ensures n == |Left()| || n == |Right()|
    {
      match this
      case Mono(b) => |b|
      case Stereo(l, r) => if |l| <= |r| then |l| else |r|
    }

    /** The number of samples held over all channels. */
    function Size(): (n: nat)
      ensures n >= Len()
      ensures IsStereo() ==> n == |Left()| + |Right()|
      ensures !IsStereo() ==> n == |Left()|
    {
      match this
      case Mono(b) => |b|
      case Stereo(l, r) => |l| + |r|
    }

    /**
     * is_empty as written (src/buffer/base.rs:33-38): the Stereo arm tests
     * the right channel twice, so the left channel is never looked at: the
     * buffer is reported empty exactly when its right side is.
     */
    predicate IsEmpty()
      ensures IsEmpty() <==> |Right()| == 0
    {
      match this
      case Mono(b) => |b| == 0
      case Stereo(_, r) => |r| == 0 && |r| == 0
    }

    /** is_empty as evidently intended: both channels empty. */
    predicate BothChannelsEmpty()
    {
      match this
      case Mono(b) => |b| == 0
      case Stereo(l, r) => |l| == 0 && |r| == 0
    }

    /** is_stereo: false exactly for Mono (src/buffer/base.rs:40-42). */
    predicate IsStereo()
      ensures !IsStereo() ==> Left() == Right()
    {
      !Mono?
    }

    /** left: the single channel of Mono, the first of Stereo (src/buffer/base.rs:44-49). */
    function Left(): seq<S>
    {
      match this
      case Mono(b) => b
      case Stereo(l, _) => l
    }

    /** right: the single channel of Mono, the second of Stereo (src/buffer/base.rs:51-56). */
    function Right(): seq<S>
    {
      match this
      case Mono(b) => b
      case Stereo(_, r) => r
    }
  }

  /** A Mono buffer shows its one channel on both sides. */
  lemma MonoSidesAgree<S>(b: ChannelBuffer<S>)
    requires !b.IsStereo()
    ensures b.Left() == b.Right() == b.channel
    ensures b.Len() == b.Size() == |b.channel|
  {
  }

  /** For equal channels, Stereo holds twice its frame count. */
  lemma StereoSizeTwiceLen<S>(b: ChannelBuffer<S>)
    requires b.IsStereo() && |b.Left()| == |b.Right()|
    ensures b.Size() == 2 * b.Len()
  {
  }

  /**
   * The input that shows the discrepancy: a Stereo buffer with one left
   * sample and no right sample holds a sample but is reported empty.
   */
  lemma IsEmptyMissesLeftSample<S>(x: S)
    ensures Stereo([x], []).IsEmpty()
    ensures Stereo([x], []).Size() == 1
    ensures !Stereo([x], []).BothChannelsEmpty()
  {
  }

  /** The intended test is empty exactly when no sample is held at all. */
  lemma BothChannelsEmptyIffNoSamples<S>(b: ChannelBuffer<S>)
    ensures b.BothChannelsEmpty() <==> b.Size() == 0
  {
  }
}
