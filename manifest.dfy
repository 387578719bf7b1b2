/**
 * The sample manifest of src/sample_pool/manifest.rs: a list of entries
 * (path, size, name, content hash) and one aggregate CRC-32 computed by
 * feeding every entry, in order, to a single hasher through its derived
 * Hash implementation.
 */
module Manifest {
  import opened Wrappers
  import Crc32
  import File

  type byte = Crc32.byte

  /** One sample file as the manifest records it; equality is field by field. */
  datatype ManifestEntry = ManifestEntry(path: File.Path, size: nat, name: seq<byte>, hash: bv32)

  datatype Manifest = Manifest(hash: bv32, entries: seq<ManifestEntry>)

  /** x in width little-endian bytes, keeping its low 8 * width bits. */
  function LittleEndian(x: nat, width: nat): (s: seq<byte>)
    ensures |s| == width
  {
    if width == 0 then [] else [(x % 256) as byte] + LittleEndian(x / 256, width - 1)
  }

  /**
   * The bytes the derived Hash of an entry writes, field by field: the path
   * (its bytes, then their count as a usize), the size as a usize, the name
   * (its bytes, then the 0xFF terminator str hashing appends) and the hash as
   * a u32, all little-endian.
   */
  function EntryBytes(e: ManifestEntry): seq<byte> {
    e.path.raw + LittleEndian(|e.path.raw|, 8) + LittleEndian(e.size, 8) + e.name + [0xFF] + LittleEndian(e.hash as nat, 4)
  }

  /** The bytes of a whole entry list, entry after entry. */
  function EntriesBytes(entries: seq<ManifestEntry>): seq<byte> {
    if entries == [] then [] else EntryBytes(entries[0]) + EntriesBytes(entries[1..])
  }

  /** entries.iter().for_each(|e| e.hash(&mut hasher)): the entries fed in order. */
  function FeedEntries(h: Crc32.Hasher, entries: seq<ManifestEntry>): Crc32.Hasher
    decreases entries
  {
    if entries == [] then h else FeedEntries(Crc32.Update(h, EntryBytes(entries[0])), entries[1..])
  }

  /** Feeding the entries one by one is one update with all their bytes. */
  lemma {:induction false} FeedEntriesIsUpdate(h: Crc32.Hasher, entries: seq<ManifestEntry>)
    ensures FeedEntries(h, entries) == Crc32.Update(h, EntriesBytes(entries))
    decreases entries
  {
    if entries != [] {
      FeedEntriesIsUpdate(Crc32.Update(h, EntryBytes(entries[0])), entries[1..]);
      Crc32.UpdateConcat(h, EntryBytes(entries[0]), EntriesBytes(entries[1..]));
    } else {
      Crc32.UpdateConcat(h, [], []);
    }
  }

  /** The byte stream of a list is the streams of its parts, in order. */
  lemma {:induction false} EntriesBytesConcat(a: seq<ManifestEntry>, b: seq<ManifestEntry>)
    ensures EntriesBytes(a + b) == EntriesBytes(a) + EntriesBytes(b)
  {
    if a == [] {
      assert a + b == b;
    } else {
      assert (a + b)[1..] == a[1..] + b;
      EntriesBytesConcat(a[1..], b);
    }
  }

  /**
   * Manifest::new (src/sample_pool/manifest.rs:20-25): the entries are kept
   * as given, in order, and the hash is the CRC-32 of their byte stream.
   */
  function New(entries: seq<ManifestEntry>): (m: Manifest)
    ensures m.entries == entries
    ensures m.hash == Crc32.Checksum(EntriesBytes(entries))
  {
    FeedEntriesIsUpdate(Crc32.New(), entries);
    Manifest(Crc32.Finalize(FeedEntries(Crc32.New(), entries)), entries)
  }

  /**
   * The fold is sequential: the hash of a + b continues from the hasher state
   * a leaves behind.
   */
  lemma NewFoldsInOrder(a: seq<ManifestEntry>, b: seq<ManifestEntry>)
    ensures New(a + b).hash == Crc32.Finalize(Crc32.Update(Crc32.Update(Crc32.New(), EntriesBytes(a)), EntriesBytes(b)))
  {
    EntriesBytesConcat(a, b);
    Crc32.UpdateConcat(Crc32.New(), EntriesBytes(a), EntriesBytes(b));
  }

  /** Three chunks fed one after another are one update with all of them. */
  lemma UpdateThree(h: Crc32.Hasher, a: seq<byte>, b: seq<byte>, c: seq<byte>)
    ensures Crc32.Update(h, a + b + c) == Crc32.Update(Crc32.Update(Crc32.Update(h, a), b), c)
  {
    Crc32.UpdateConcat(h, a, b);
    Crc32.UpdateConcat(h, a + b, c);
  }

  /** Two entries that differ only in their size. */
  const SMALL := ManifestEntry(File.Path([], None, None), 0, [], 0)
  const LARGE := ManifestEntry(File.Path([], None, None), 1, [], 0)

  /** The little-endian encodings the two witnesses use. */
  lemma LittleEndianSmall()
    ensures LittleEndian(0, 8) == [0, 0, 0, 0, 0, 0, 0, 0]
    ensures LittleEndian(1, 8) == [1, 0, 0, 0, 0, 0, 0, 0]
    ensures LittleEndian(0, 4) == [0, 0, 0, 0]
  {
    LittleEndianZero();
    assert LittleEndian(1, 8) == [1] + LittleEndian(0, 7);
  }

  /** Zero encodes as zero bytes. */
  lemma LittleEndianZero()
    ensures LittleEndian(0, 7) == [0, 0, 0, 0, 0, 0, 0]
    ensures LittleEndian(0, 8) == [0] + LittleEndian(0, 7)
    ensures LittleEndian(0, 4) == [0, 0, 0, 0]
  {
    assert LittleEndian(0, 7) == [0, 0, 0] + LittleEndian(0, 4);
  }

  /** SMALL's stream: a zero path length, a zero size, the name terminator and a zero hash. */
  lemma SmallBytes()
    ensures EntryBytes(SMALL) == [0, 0, 0, 0, 0, 0, 0, 0] + [0, 0, 0, 0, 0, 0, 0, 0] + [0xFF, 0, 0, 0, 0]
  {
    LittleEndianSmall();
  }

  /** LARGE's stream: a zero path length, the size 1, the name terminator and a zero hash. */
  lemma LargeBytes()
    ensures EntryBytes(LARGE) == [0, 0, 0, 0, 0, 0, 0, 0] + [1, 0, 0, 0, 0, 0, 0, 0] + [0xFF, 0, 0, 0, 0]
  {
    LittleEndianSmall();
  }

  /** Feeding SMALL to a fresh hasher. */
  lemma SmallFirstChunks()
    ensures Crc32.Update(Crc32.Hasher(0xFFFF_FFFF), [0, 0, 0, 0, 0, 0, 0, 0]) == Crc32.Hasher(0x9ADD_2096) &&
            Crc32.Update(Crc32.Hasher(0x9ADD_2096), [0, 0, 0, 0, 0, 0, 0, 0]) == Crc32.Hasher(0x1344_B4AA) &&
            Crc32.Update(Crc32.Hasher(0x1344_B4AA), [0xFF, 0, 0, 0, 0]) == Crc32.Hasher(0x749F_FDF8)
  {
  }

  lemma SmallFirst()
    ensures Crc32.Update(Crc32.New(), EntryBytes(SMALL)) == Crc32.Hasher(0x749F_FDF8)
  {
    SmallBytes();
    SmallFirstChunks();
    UpdateThree(Crc32.Hasher(0xFFFF_FFFF), [0, 0, 0, 0, 0, 0, 0, 0], [0, 0, 0, 0, 0, 0, 0, 0], [0xFF, 0, 0, 0, 0]);
  }

  /** Feeding LARGE after SMALL. */
  lemma LargeSecondChunks()
    ensures Crc32.Update(Crc32.Hasher(0x749F_FDF8), [0, 0, 0, 0, 0, 0, 0, 0]) == Crc32.Hasher(0xC945_B67F) &&
            Crc32.Update(Crc32.Hasher(0xC945_B67F), [1, 0, 0, 0, 0, 0, 0, 0]) == Crc32.Hasher(0x41EF_E84D) &&
            Crc32.Update(Crc32.Hasher(0x41EF_E84D), [0xFF, 0, 0, 0, 0]) == Crc32.Hasher(0x3210_DB7A)
  {
  }

  lemma LargeSecond()
    ensures Crc32.Update(Crc32.Hasher(0x749F_FDF8), EntryBytes(LARGE)) == Crc32.Hasher(0x3210_DB7A)
  {
    LargeBytes();
    LargeSecondChunks();
    UpdateThree(Crc32.Hasher(0x749F_FDF8), [0, 0, 0, 0, 0, 0, 0, 0], [1, 0, 0, 0, 0, 0, 0, 0], [0xFF, 0, 0, 0, 0]);
  }

  /** Feeding LARGE to a fresh hasher. */
  lemma LargeFirstChunks()
    ensures Crc32.Update(Crc32.Hasher(0xFFFF_FFFF), [0, 0, 0, 0, 0, 0, 0, 0]) == Crc32.Hasher(0x9ADD_2096) &&
            Crc32.Update(Crc32.Hasher(0x9ADD_2096), [1, 0, 0, 0, 0, 0, 0, 0]) == Crc32.Hasher(0xDFEE_B434) &&
            Crc32.Update(Crc32.Hasher(0xDFEE_B434), [0xFF, 0, 0, 0, 0]) == Crc32.Hasher(0xA909_247D)
  {
  }

  lemma LargeFirst()
    ensures Crc32.Update(Crc32.New(), EntryBytes(LARGE)) == Crc32.Hasher(0xA909_247D)
  {
    LargeBytes();
    LargeFirstChunks();
    UpdateThree(Crc32.Hasher(0xFFFF_FFFF), [0, 0, 0, 0, 0, 0, 0, 0], [1, 0, 0, 0, 0, 0, 0, 0], [0xFF, 0, 0, 0, 0]);
  }

  /** Feeding SMALL after LARGE. */
  lemma SmallSecondChunks()
    ensures Crc32.Update(Crc32.Hasher(0xA909_247D), [0, 0, 0, 0, 0, 0, 0, 0]) == Crc32.Hasher(0x569F_35E1) &&
            Crc32.Update(Crc32.Hasher(0x569F_35E1), [0, 0, 0, 0, 0, 0, 0, 0]) == Crc32.Hasher(0xEE42_31F7) &&
            Crc32.Update(Crc32.Hasher(0xEE42_31F7), [0xFF, 0, 0, 0, 0]) == Crc32.Hasher(0xCB04_53C9)
  {
  }

  lemma SmallSecond()
    ensures Crc32.Update(Crc32.Hasher(0xA909_247D), EntryBytes(SMALL)) == Crc32.Hasher(0xCB04_53C9)
  {
    SmallBytes();
    SmallSecondChunks();
    UpdateThree(Crc32.Hasher(0xA909_247D), [0, 0, 0, 0, 0, 0, 0, 0], [0, 0, 0, 0, 0, 0, 0, 0], [0xFF, 0, 0, 0, 0]);
  }

  /** The manifest hash of two entries: one update per entry, in list order. */
  lemma NewOfPair(a: ManifestEntry, b: ManifestEntry)
    ensures New([a, b]).hash == Crc32.Finalize(Crc32.Update(Crc32.Update(Crc32.New(), EntryBytes(a)), EntryBytes(b)))
  {
    NewFoldsInOrder([a], [b]);
    assert [a] + [b] == [a, b];
    assert [a][1..] == [] && [b][1..] == [];
    assert EntriesBytes([a]) == EntryBytes(a) + [] == EntryBytes(a);
    assert EntriesBytes([b]) == EntryBytes(b) + [] == EntryBytes(b);
  }

  /**
   * The aggregate hash depends on the order of the entries: the same two
   * entries listed in the two orders give two different hashes.
   */
  lemma EntryOrderMatters()
    ensures New([SMALL, LARGE]).hash == 0xCDEF_2485
    ensures New([LARGE, SMALL]).hash == 0x34FB_AC36
  {
    NewOfPair(SMALL, LARGE);
    SmallFirst();
    LargeSecond();
    NewOfPair(LARGE, SMALL);
    LargeFirst();
    SmallSecond();
  }
}
