/**
 * The reference-counted shared storage under both generations of
 * SharedBuffer (src/buffer.rs, src/buffer/shared.rs): an Arc<[f32]> whose
 * strong count is an explicit field. The samples are immutable once the
 * storage exists; cloning a handle bumps the count, dropping one lowers it.
 */
module Arc {

  /**
   * One f32 sample as its IEEE-754 bit pattern. This layer only copies
   * samples, never computes on them; 0 is the pattern of +0.0, which is what
   * a zeroed allocation holds.
   */
  type Sample = bv32

  const ZERO: Sample := 0

  /** 1.0 to 6.0 as f32 bit patterns, the sample values of the buffer tests. */
  const ONE: Sample := 0x3F80_0000
  const TWO: Sample := 0x4000_0000
  const THREE: Sample := 0x4040_0000
  const FOUR: Sample := 0x4080_0000
  const FIVE: Sample := 0x40A0_0000
  const SIX: Sample := 0x40C0_0000

  /** Shared immutable sample storage with its strong reference count. */
  class ArcSlice {
    const data: seq<Sample>
    var strong: nat

    /** A new allocation: the creating handle is its only owner. */
    constructor (data: seq<Sample>)
      ensures this.data == data && strong == 1
    {
      this.data := data;
      strong := 1;
    }

    /** Arc::clone: one more handle shares the storage. */
    method Acquire()
      modifies this
      ensures strong == old(strong) + 1
    {
      strong := strong + 1;
    }

    /** Dropping a live handle. */
    method Release()
      requires strong >= 1
      modifies this
      ensures strong == old(strong) - 1
    {
      strong := strong - 1;
    }

    /** Arc::strong_count(..) == 1. */
    predicate IsUnique()
      reads this
    {
      strong == 1
    }
  }

  /**
   * What SharedBuffer::from_iter stores: n samples, position i holding the
   * i-th item while there are items, zero after; surplus items are ignored.
   */
  function ZeroFilled(items: seq<Sample>, n: nat): (s: seq<Sample>)
    ensures |s| == n
  {
    seq(n, i requires 0 <= i < n => if i < |items| then items[i] else ZERO)
  }

  /**
   * The fill loop of SharedBuffer::from_iter (src/buffer.rs:55-66,
   * src/buffer/shared.rs:48-57): a zeroed allocation of exactly n samples,
   * then the items zipped into it in order.
   */
  method FillZeroed(items: seq<Sample>, n: nat) returns (s: seq<Sample>)
    ensures |s| == n
    ensures forall i :: 0 <= i < n && i < |items| ==> s[i] == items[i]
    ensures forall i :: |items| <= i < n ==> s[i] == ZERO
    ensures s == ZeroFilled(items, n)
  {
    var data := new Sample[n](_ => ZERO);
    var i := 0;
    while i < n && i < |items|
      invariant 0 <= i <= n && i <= |items|
      invariant forall k :: 0 <= k < i ==> data[k] == items[k]
      invariant forall k :: i <= k < n ==> data[k] == ZERO
    {
      data[i] := items[i];
      i := i + 1;
    }
    s := data[..];
  }

  /**
   * The life of a count as is_unique reports it: a fresh storage is unique,
   * it is not while a clone is live, and it is again once the clone is gone.
   */
  method UniqueAcrossClone(data: seq<Sample>) returns (atStart: bool, whileCloned: bool, afterDrop: bool)
    ensures atStart && !whileCloned && afterDrop
  {
    var arc := new ArcSlice(data);
    atStart := arc.IsUnique();
    arc.Acquire();
    whileCloned := arc.IsUnique();
    arc.Release();
    afterDrop := arc.IsUnique();
  }
}
