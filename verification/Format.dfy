/** Entries, manifests and flags of pkg/image/format.go and pkg/image/flags.go. */
module Format {
  import opened Bytes

  /** The checksum of a chunk.  The layout does not depend on which one is used; Crc32c.Crc is the one
      of the source. */
  type Checksum = Bytes -> nat

  datatype Entry = Entry(ptr: nat, size: nat, offset: nat, crc: nat, order: nat, hash: Bytes)

  /** The flag bits 1, 2, 4, 8 of the header and the remaining ones, which the code carries along. */
  datatype Flags = Flags(compressed: bool, sparse: bool, dedup: bool, delta: bool, rest: nat)

  datatype Manifest = Manifest(version: nat, flags: Flags, entries: seq<Entry>)

  /** The chunks follow each other from offset 0 and end at total. */
  ghost predicate Tiled(entries: seq<Entry>, total: nat)
  {
    && (forall i | 0 <= i < |entries| - 1 :: entries[i].offset + entries[i].size == entries[i + 1].offset)
    && (if entries == [] then total == 0
        else entries[0].offset == 0 && entries[|entries| - 1].offset + entries[|entries| - 1].size == total)
  }

  function NoHash(): (r: Bytes)
    ensures |r| == 32
  {
    ZeroBytes(32)
  }

  /** What an entry of a manifest of this version keeps on disk: version 1 has no room for the digest. */
  function Recorded(version: nat, e: Entry): (r: Entry)
  {
    if version >= 2 then e else e.(hash := NoHash())
  }

  function RecordedAll(version: nat, entries: seq<Entry>): (r: seq<Entry>)
    ensures |r| == |entries|
    ensures version >= 2 ==> r == entries
  {
    seq(|entries|, i requires 0 <= i < |entries| => Recorded(version, entries[i]))
  }

  /** The same chunks, digests aside. */
  ghost predicate SameChunks(a: seq<Entry>, b: seq<Entry>)
  {
    |a| == |b| && forall i | 0 <= i < |a| :: b[i] == a[i].(hash := b[i].hash)
  }

  /** os.File.ReadAt with a buffer of the given size: offsets are signed 64-bit, short reads are errors,
      and an empty buffer reads nothing. */
  function ReadAt(data: Bytes, offset: nat, size: nat): (r: Option<Bytes>)
    ensures r.Some? ==> |r.value| == size
  {
    if offset >= 0x8000_0000_0000_0000 then None
    else if size == 0 then Some([])
    else if offset + size <= |data| then Some(data[offset..offset + size])
    else None
  }

  /** Every chunk can be read. */
  ghost predicate Readable(entries: seq<Entry>, data: Bytes)
  {
    forall i | 0 <= i < |entries| :: ReadAt(data, entries[i].offset, entries[i].size).Some?
  }

  /** The chunks of a device image, in manifest order. */
  function Chunks(entries: seq<Entry>, data: Bytes): (r: seq<Bytes>)
    requires Readable(entries, data)
    ensures |r| == |entries|
    ensures forall i | 0 <= i < |r| :: r[i] == ReadAt(data, entries[i].offset, entries[i].size).value
  {
    seq(|entries|, i requires 0 <= i < |entries| => ReadAt(data, entries[i].offset, entries[i].size).value)
  }

  /** The chunks of a tiled device image make it up. */
  lemma {:induction false} ChunksOfTiled(entries: seq<Entry>, data: Bytes)
    requires Tiled(entries, |data|) && |data| < 0x8000_0000_0000_0000
    ensures Readable(entries, data)
    ensures Concat(Chunks(entries, data)) == data
  {
    forall i | 0 <= i < |entries| ensures ReadAt(data, entries[i].offset, entries[i].size).Some? {
      TiledInside(entries, |data|, i, i);
    }
    if entries != [] {
      ChunksUpTo(entries, data, |entries|);
      assert Chunks(entries, data)[..|entries|] == Chunks(entries, data);
    }
  }

  lemma {:induction false} ChunksUpTo(entries: seq<Entry>, data: Bytes, n: nat)
    requires Tiled(entries, |data|) && Readable(entries, data) && 0 < n <= |entries|
    ensures entries[n - 1].offset + entries[n - 1].size <= |data|
    ensures Concat(Chunks(entries, data)[..n]) == data[..entries[n - 1].offset + entries[n - 1].size]
  {
    var chunks, e := Chunks(entries, data), entries[n - 1];
    TiledInside(entries, |data|, n - 1, n - 1);
    assert chunks[n - 1] == data[e.offset..e.offset + e.size];
    assert chunks[..n] == chunks[..n - 1] + [chunks[n - 1]];
    ConcatSnoc(chunks[..n - 1], chunks[n - 1]);
    if n > 1 {
      ChunksUpTo(entries, data, n - 1);
      assert entries[n - 2].offset + entries[n - 2].size == entries[n - 2 + 1].offset;
    }
  }

  /** Where the entries of a tiled manifest lie. */
  lemma {:induction false} TiledInside(entries: seq<Entry>, total: nat, i: nat, j: nat)
    requires Tiled(entries, total) && i <= j < |entries|
    ensures entries[j].offset + entries[j].size <= total
    ensures i < j ==> entries[i].offset + entries[i].size <= entries[j].offset
    decreases |entries| - i
  {
    if i < j {
      TiledInside(entries, total, i + 1, j);
      assert entries[i].offset + entries[i].size == entries[i + 1].offset;
    } else if j < |entries| - 1 {
      TiledInside(entries, total, j + 1, j + 1);
      assert entries[j].offset + entries[j].size == entries[j + 1].offset;
    }
  }

  /** Every position of a tiled file lies in some entry. */
  lemma {:induction false} TiledCovers(entries: seq<Entry>, total: nat, p: nat, i: nat) returns (h: nat)
    requires Tiled(entries, total) && p < total && i < |entries| && entries[i].offset <= p
    ensures h < |entries| && entries[h].offset <= p < entries[h].offset + entries[h].size
    decreases |entries| - i
  {
    if p < entries[i].offset + entries[i].size {
      h := i;
    } else {
      assert i < |entries| - 1 ==> entries[i].offset + entries[i].size == entries[i + 1].offset;
      h := TiledCovers(entries, total, p, i + 1);
    }
  }
}
