/**
 * The streaming CRC-32 checksum the repository uses for file contents and for
 * the aggregate hash of a manifest (the IEEE polynomial in reflected form, as
 * computed by the crc32fast crate). The hasher state is the 32-bit register;
 * how the crate computes it (tables, SIMD) is not part of this model, only
 * the function it computes.
 */
module Crc32 {

  type byte = bv8

  const POLYNOMIAL: bv32 := 0xEDB8_8320
  const INITIAL: bv32 := 0xFFFF_FFFF

  /** One shift of the reflected CRC register. */
  function Shift(reg: bv32): bv32 {
    if reg & 1 == 1 then (reg >> 1) ^ POLYNOMIAL else reg >> 1
  }

  /** Feeds one byte into the register: xor it in, then eight shifts. */
  function ByteStep(reg: bv32, b: byte): bv32 {
    var r0 := reg ^ (b as bv32);
    Shift(Shift(Shift(Shift(Shift(Shift(Shift(Shift(r0))))))))
  }

  /** The state of a streaming checksum. */
  datatype Hasher = Hasher(register: bv32)

  function New(): Hasher {
    Hasher(INITIAL)
  }

  /** Feeds a chunk of bytes, left to right. */
  function Update(h: Hasher, chunk: seq<byte>): Hasher
    decreases |chunk|
  {
    if chunk == [] then h else Update(Hasher(ByteStep(h.register, chunk[0])), chunk[1..])
  }

  function Finalize(h: Hasher): bv32 {
    h.register ^ INITIAL
  }

  /** The checksum of a whole byte string. */
  function Checksum(bytes: seq<byte>): bv32 {
    Finalize(Update(New(), bytes))
  }

  /**
   * Streaming is sound: feeding a then b is the same as feeding a + b, so a
   * checksum can be computed over any chunking of its input.
   */
  lemma {:induction false} UpdateConcat(h: Hasher, a: seq<byte>, b: seq<byte>)
    ensures Update(Update(h, a), b) == Update(h, a + b)
    decreases |a|
  {
    if a == [] {
      assert a + b == b;
    } else {
      assert (a + b)[0] == a[0];
      assert (a + b)[1..] == a[1..] + b;
      UpdateConcat(Hasher(ByteStep(h.register, a[0])), a[1..], b);
    }
  }

  /** The checksum of no bytes at all is zero. */
  lemma EmptyChecksum()
    ensures Checksum([]) == 0
  {
  }

  /** "hello world" in ASCII. */
  const HELLO_WORLD: seq<byte> := [0x68, 0x65, 0x6c, 0x6c, 0x6f, 0x20, 0x77, 0x6f, 0x72, 0x6c, 0x64]

  /** "world, hello " in ASCII. */
  const WORLD_HELLO: seq<byte> := [0x77, 0x6f, 0x72, 0x6c, 0x64, 0x2c, 0x20, 0x68, 0x65, 0x6c, 0x6c, 0x6f, 0x20]

  /** The test vector of the repository's hash test. */
  lemma HelloWorldChecksum()
    ensures Checksum(HELLO_WORLD) == 0x0D4A_1185
    ensures Checksum(WORLD_HELLO) != 0x0D4A_1185
  {
  }
}
