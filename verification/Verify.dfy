/** verifyImage of pkg/control/orchestrator.go and VerifyChunk of pkg/image/format.go, and what they
    detect. */
module Verify {
  import opened Bytes
  import opened Format
  import opened Memory
  import opened Coalesce
  import opened ImageStore
  import Crc32c

  datatype Verdict = Good | Unreadable | Mismatch

  function CheckChunk(crc: Checksum, e: Entry, device: Bytes): Verdict
  {
    var r := ReadAt(device, e.offset, e.size);
    if r.None? then Unreadable else if crc(r.value) == e.crc then Good else Mismatch
  }

  /** Every chunk can be read and has the checksum of its entry. */
  ghost predicate Verifies(crc: Checksum, entries: seq<Entry>, device: Bytes)
  {
    forall i | 0 <= i < |entries| :: CheckChunk(crc, entries[i], device) == Good
  }

  /** The verdict is that of the first chunk that is not good. */
  method VerifyDevice(crc: Checksum, entries: seq<Entry>, device: Bytes) returns (v: Verdict)
    ensures v == Good <==> Verifies(crc, entries, device)
    ensures v != Good ==> exists i | 0 <= i < |entries| ::
              CheckChunk(crc, entries[i], device) == v && Verifies(crc, entries[..i], device)
  {
    for i := 0 to |entries|
      invariant Verifies(crc, entries[..i], device)
    {
      v := CheckChunk(crc, entries[i], device);
      if v != Good { return; }
      assert entries[..i + 1] == entries[..i] + [entries[i]];
    }
    assert entries[..|entries|] == entries;
    v := Good;
  }

  /** The verdict depends only on what the image stands for; in an image in harmony it is therefore the same
      before and after any image is materialised. */
  method VerifyImage(fs: FileSystem, crc: Checksum, d: Path, ghost rank: Path -> nat) returns (ok: bool)
    requires Ranked(fs.dirs, rank)
    modifies fs`dirs
    ensures Touches(fs.zstd, old(fs.dirs), fs.dirs, rank, d)
    ensures Harmonious(fs.zstd, old(fs.dirs), rank, d) ==> SameContents(fs.zstd, old(fs.dirs), fs.dirs, rank)
    ensures ok <==>
      && d in old(fs.dirs) && old(fs.dirs)[d].manifest.Some?
      && Logical(fs.zstd, old(fs.dirs), rank, d).Some?
      && Verifies(crc, old(fs.dirs)[d].manifest.value.entries, Logical(fs.zstd, old(fs.dirs), rank, d).value)
  {
    ghost var s := fs.dirs;
    ok := fs.EnsureDeviceMaterialized(d, rank);
    if !ok { return; }
    assert Refreshed(s[d], fs.dirs[d]);
    var v := VerifyDevice(crc, fs.dirs[d].manifest.value.entries, fs.dirs[d].device.value);
    ok := v == Good;
  }

  // ---------- what it accepts ----------

  /** A snapshot's own device.bin passes. */
  lemma {:induction false} SnapshotVerifies(crc: Checksum, mem: Mem, allocs: seq<AllocRec>)
    requires |NaiveDevice(mem, allocs)| < 0x8000_0000_0000_0000
    ensures Verifies(crc, NaiveManifest(crc, mem, allocs, 0), NaiveDevice(mem, allocs))
  {
    var m, d := NaiveManifest(crc, mem, allocs, 0), NaiveDevice(mem, allocs);
    forall i | 0 <= i < |m| ensures CheckChunk(crc, m[i], d) == Good {
      NaiveChunk(crc, mem, allocs, i);
      var a := allocs[i];
      assert a.size == 0 ==> Read(mem, a.base, a.size) == [];
    }
  }

  // ---------- what it rejects ----------

  /** a and b agree from lo to hi, except perhaps inside the four bytes from p. */
  ghost predicate SameOutside(a: Bytes, b: Bytes, lo: nat, hi: nat, p: nat)
    requires |a| == |b|
  {
    forall k | lo <= k < hi && k < |a| && !(p <= k < p + 4) :: a[k] == b[k]
  }

  /** The checksum tells apart any two strings of one length that differ only inside four consecutive
      bytes. */
  ghost predicate DetectsWindows(crc: Checksum)
  {
    forall x: Bytes, y: Bytes, p: nat | |x| == |y| && x != y && SameOutside(x, y, 0, |x|, p) :: crc(x) != crc(y)
  }

  lemma {:induction false} CrcDetectsWindows()
    ensures DetectsWindows(Crc32c.Crc)
  {
    forall x: Bytes, y: Bytes, p: nat | |x| == |y| && x != y && SameOutside(x, y, 0, |x|, p)
      ensures Crc32c.Crc(x) != Crc32c.Crc(y)
    {
      Crc32c.WindowChangesCrc(x, y, p);
    }
  }

  /** A chunk that holds a difference, confined to four consecutive bytes, no longer checks. */
  lemma {:induction false} NarrowDamageIsSeen(crc: Checksum, e: Entry, a: Bytes, b: Bytes, p: nat, k: nat)
    requires DetectsWindows(crc) && |a| == |b| && CheckChunk(crc, e, a) == Good
    requires e.offset <= k < e.offset + e.size <= |a| && a[k] != b[k]
    requires SameOutside(a, b, e.offset, e.offset + e.size, p)
    ensures CheckChunk(crc, e, b) == Mismatch
  {
    var x, y := a[e.offset..e.offset + e.size], b[e.offset..e.offset + e.size];
    var q := if p < e.offset then 0 else p - e.offset;
    assert x[k - e.offset] != y[k - e.offset];
    forall i | 0 <= i < |x| && !(q <= i < q + 4) ensures x[i] == y[i] {
      assert a[e.offset + i] == b[e.offset + i];
    }
    assert SameOutside(x, y, 0, |x|, q);
  }

  /** Damage that touches any number of chunks, each of them only inside a window of four consecutive
      bytes, is rejected. */
  lemma {:induction false} ScatteredDamageIsRejected(crc: Checksum, entries: seq<Entry>, a: Bytes, b: Bytes,
      windows: seq<nat>)
    requires DetectsWindows(crc) && Tiled(entries, |a|) && |b| == |a| && a != b && Verifies(crc, entries, a)
    requires |windows| == |entries| && forall i | 0 <= i < |entries| ::
      SameOutside(a, b, entries[i].offset, entries[i].offset + entries[i].size, windows[i])
    ensures !Verifies(crc, entries, b)
  {
    var k := Crc32c.FirstDifference(a, b);
    var h := TiledCovers(entries, |a|, k, 0);
    TiledInside(entries, |a|, h, h);
    NarrowDamageIsSeen(crc, entries[h], a, b, windows[h], k);
  }

  /** The validator with the checksum of the source: any damage inside one window of four consecutive
      bytes of a tiled device.bin is rejected, even across the border of two chunks. */
  lemma {:induction false} WindowDamageIsRejected(entries: seq<Entry>, a: Bytes, b: Bytes, p: nat)
    requires Tiled(entries, |a|) && |b| == |a| && a != b && Verifies(Crc32c.Crc, entries, a)
    requires SameOutside(a, b, 0, |a|, p)
    ensures !Verifies(Crc32c.Crc, entries, b)
  {
    CrcDetectsWindows();
    ScatteredDamageIsRejected(Crc32c.Crc, entries, a, b, seq(|entries|, i => p));
  }

  /** A device.bin that lost its end is rejected, whatever the checksum. */
  lemma {:induction false} TruncationIsRejected(crc: Checksum, entries: seq<Entry>, total: nat, b: Bytes)
    requires Tiled(entries, total) && |b| < total
    ensures !Verifies(crc, entries, b)
  {
    var h := TiledCovers(entries, total, |b|, 0);
    assert CheckChunk(crc, entries[h], b) == Unreadable;
  }
}
