/**
 * Stereo channel transforms of src/dsp/interleave.rs: conversions between an
 * interleaved L,R,L,R,... slice and two separate channel slices, written into
 * caller-supplied output slices in place.
 */
module Interleave {

  /** The samples at even positions of an interleaved slice: the left channel. */
  function Evens<T>(s: seq<T>): (r: seq<T>)
    ensures |r| == |s| / 2
    ensures forall i :: 0 <= i < |r| ==> r[i] == s[2 * i]
  {
    seq(|s| / 2, i requires 0 <= i < |s| / 2 => s[2 * i])
  }

  /** The samples at odd positions of an interleaved slice: the right channel. */
  function Odds<T>(s: seq<T>): (r: seq<T>)
    ensures |r| == |s| / 2
    ensures forall i :: 0 <= i < |r| ==> r[i] == s[2 * i + 1]
  {
    seq(|s| / 2, i requires 0 <= i < |s| / 2 => s[2 * i + 1])
  }

  function Min(a: int, b: int): int {
    if a <= b then a else b
  }

  /** The sample count interleave_stereo computes: the shortest of the two channels and the output. */
  function InterleaveCount(lLen: nat, rLen: nat, outLen: nat): nat {
    Min(lLen, Min(rLen, outLen))
  }

  /** What interleaving n samples of l and r does to the output slice out. */
  function InterleavedInto<T>(l: seq<T>, r: seq<T>, out: seq<T>, n: nat): (o: seq<T>)
    requires n <= |l| && n <= |r| && 2 * n <= |out|
    ensures |o| == |out|
    ensures forall i :: 0 <= i < n ==> o[2 * i] == l[i] && o[2 * i + 1] == r[i]
    ensures forall k :: 2 * n <= k < |out| ==> o[k] == out[k]
  {
    seq(|out|, k requires 0 <= k < |out| =>
      if k < 2 * n then (if k % 2 == 0 then l[k / 2] else r[k / 2]) else out[k])
  }

  /**
   * The two write passes of interleave_stereo for a given sample count n:
   * first every even position 2i receives l[i], then every odd position
   * 2i + 1 receives r[i]; the passes touch disjoint positions, so the result
   * is that of one interleaved pass.
   */
  method InterleavePasses<T>(l: seq<T>, r: seq<T>, out: array<T>, n: nat)
    requires n <= |l| && n <= |r| && 2 * n <= out.Length
    modifies out
    ensures out[..] == InterleavedInto(l, r, old(out[..]), n)
  {
    for sample := 0 to n
      invariant forall k :: 0 <= k < out.Length ==>
        out[k] == if k % 2 == 0 && k < 2 * sample then l[k / 2] else old(out[k])
    {
      out[2 * sample] := l[sample];
    }
    for sample := 0 to n
      invariant forall k :: 0 <= k < out.Length ==>
        out[k] == if k % 2 == 0 && k < 2 * n then l[k / 2]
                  else if k % 2 == 1 && k < 2 * sample then r[k / 2]
                  else old(out[k])
    {
      out[2 * sample + 1] := r[sample];
    }
  }

  /**
   * interleave_stereo (src/dsp/interleave.rs:2-13), as written: the sample
   * count is the minimum of |l|, |r| and |out| (not |out| / 2), so the writes
   * stay in bounds only when that count fits twice into the output; otherwise
   * the source panics.
   */
  method InterleaveStereo<T>(l: seq<T>, r: seq<T>, out: array<T>)
    requires 2 * InterleaveCount(|l|, |r|, out.Length) <= out.Length
    modifies out
    ensures out[..] == InterleavedInto(l, r, old(out[..]), InterleaveCount(|l|, |r|, out.Length))
  {
    var n := InterleaveCount(|l|, |r|, out.Length);
    InterleavePasses(l, r, out, n);
  }

  /**
   * The input the as-written count lets through: two two-sample channels and
   * a two-sample output give a count of 2, so the in-bounds condition of
   * InterleaveStereo fails, and the last even write, at index 2, is one past
   * the end of the output.
   */
  lemma InterleaveCountOverrunsOutput()
    ensures InterleaveCount(2, 2, 2) == 2
    ensures !(2 * InterleaveCount(2, 2, 2) <= 2)
    ensures 2 * (InterleaveCount(2, 2, 2) - 1) >= 2
  {
  }

  /** The frame count, bounded also by half the output so that every write is in bounds. */
  function ClampedCount(lLen: nat, rLen: nat, outLen: nat): (n: nat)
    ensures n <= lLen && n <= rLen && 2 * n <= outLen
    ensures n == lLen || n == rLen || n == outLen / 2
  {
    Min(lLen, Min(rLen, outLen / 2))
  }

  /**
   * interleave_stereo with the frame count bounded by half the output: every
   * call is in bounds and the channels are truncated to what fits.
   */
  method InterleaveStereoClamped<T>(l: seq<T>, r: seq<T>, out: array<T>)
    modifies out
    ensures out[..] == InterleavedInto(l, r, old(out[..]), ClampedCount(|l|, |r|, out.Length))
  {
    var n := ClampedCount(|l|, |r|, out.Length);
    InterleavePasses(l, r, out, n);
  }

  /**
   * deinterleave_stereo (src/dsp/interleave.rs:15-32): the first |input| / 2
   * positions of each output receive the even and the odd input samples; a
   * trailing odd sample is never read and the outputs are untouched beyond
   * |input| / 2. Shorter outputs make the source panic.
   */
  method DeinterleaveStereo<T>(input: seq<T>, left: array<T>, right: array<T>)
    requires left != right
    requires |input| / 2 <= left.Length && |input| / 2 <= right.Length
    modifies left, right
    ensures left[..] == Evens(input) + old(left[..])[|input| / 2..]
    ensures right[..] == Odds(input) + old(right[..])[|input| / 2..]
  {
    var n := |input| / 2;
    for sample := 0 to n
      invariant forall i :: 0 <= i < sample ==> left[i] == input[2 * i]
      invariant forall k :: sample <= k < left.Length ==> left[k] == old(left[k])
      invariant right[..] == old(right[..])
    {
      left[sample] := input[sample * 2];
    }
    for sample := 0 to n
      invariant forall i :: 0 <= i < n ==> left[i] == input[2 * i]
      invariant forall k :: n <= k < left.Length ==> left[k] == old(left[k])
      invariant forall i :: 0 <= i < sample ==> right[i] == input[2 * i + 1]
      invariant forall k :: sample <= k < right.Length ==> right[k] == old(right[k])
    {
      right[sample] := input[sample * 2 + 1];
    }
  }

  /** Interleaving the two halves of an even-length slice gives the slice back. */
  lemma {:induction false} InterleaveEvensOdds<T>(s: seq<T>)
    requires |s| % 2 == 0
    ensures InterleavedInto(Evens(s), Odds(s), s, |s| / 2) == s
  {
    var h := |s| / 2;
    var o := InterleavedInto(Evens(s), Odds(s), s, h);
    forall i | 0 <= i < h
      ensures o[2 * i] == s[2 * i] && o[2 * i + 1] == s[2 * i + 1]
    {
    }
    forall k | 0 <= k < |s|
      ensures o[k] == s[k]
    {
      HalfOf(k);
    }
  }

  /** Every index is twice its half, or one more. */
  lemma HalfOf(k: nat)
    ensures k == 2 * (k / 2) || k == 2 * (k / 2) + 1
  {
  }

  /** Deinterleaving an interleaving of two equal-length channels gives them back. */
  lemma {:induction false} DeinterleaveInterleaved<T>(l: seq<T>, r: seq<T>, out: seq<T>)
    requires |l| == |r| && |out| == 2 * |l|
    ensures Evens(InterleavedInto(l, r, out, |l|)) == l
    ensures Odds(InterleavedInto(l, r, out, |l|)) == r
  {
  }

  /**
   * The round trip of the tests: deinterleave an even-length slice into two
   * outputs of half its length, then interleave those into an output of its
   * length; the result is the slice.
   */
  method DeinterleaveThenInterleave<T(0)>(s: seq<T>) returns (out: seq<T>, l: seq<T>, r: seq<T>)
    requires |s| % 2 == 0
    ensures l == Evens(s) && r == Odds(s)
    ensures out == s
  {
    var left := new T[|s| / 2];
    var right := new T[|s| / 2];
    DeinterleaveStereo(s, left, right);
    l, r := left[..], right[..];
    var output := new T[|s|];
    InterleaveStereo(l, r, output);
    InterleaveEvensOdds(s);
    out := output[..];
  }
}
