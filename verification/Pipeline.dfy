/** pkg/image/pipeline.go, with the stages of pkg/image/sparse.go, dedup.go, compress.go and delta.go as
    changes of one image directory. */
module Pipeline {
  import opened Bytes
  import opened Format
  import opened Delta
  import opened Sparse
  import opened Dedup
  import opened ImageStore

  datatype ProcessOpts = ProcessOpts(compress: bool, sparse: bool, dedup: bool, parent: Path)

  /** The files that no stage writes. */
  ghost predicate SameRecords(a: Image, b: Image)
  {
    b.dev == a.dev && b.meta == a.meta && b.criu == a.criu && b.complete == a.complete
  }

  ghost function EntriesOf(s: Store, d: Path): seq<Entry>
  {
    if d in s && s[d].manifest.Some? then s[d].manifest.value.entries else []
  }

  /** Pointers and sizes are 64-bit numbers. */
  ghost predicate Wide(entries: seq<Entry>)
  {
    forall i | 0 <= i < |entries| :: entries[i].ptr < U64 && entries[i].size < U64
  }

  // ---------- what the stages leave behind ----------

  /** The bytes of an entry's chunk. */
  function Chunk(device: Bytes, e: Entry): Bytes
  {
    if e.offset + e.size <= |device| then device[e.offset..e.offset + e.size] else []
  }

  /** The run is the range of an all-zero chunk of at least 4096 bytes. */
  ghost predicate Indexes(r: Run, entries: seq<Entry>, device: Bytes)
  {
    exists i :: 0 <= i < |entries| && ZeroChunk(entries[i], device) && r == Run(entries[i].offset, entries[i].size)
  }

  /** If the sparse index was asked for and some chunk of at least 4096 bytes is all zero, the index lists
      exactly those and the flag is set; otherwise index and flag are as before. */
  ghost predicate SparseDone(a: Image, b: Image, asked: bool)
    requires a.manifest.Some? && b.manifest.Some? && a.device.Some?
  {
    var entries, device := a.manifest.value.entries, a.device.value;
    if asked && exists i :: 0 <= i < |entries| && ZeroChunk(entries[i], device) then
      && b.sparse.Some? && b.manifest.value.flags.sparse
      && forall r :: r in b.sparse.value <==> Indexes(r, entries, device)
    else b.sparse == a.sparse && b.manifest.value.flags.sparse == a.manifest.value.flags.sparse
  }

  /** If deduplication was asked for, every chunk is in the store under its digest, the entries of a version 2
      manifest name it, device.map tells digest, size and pointer of each entry, and the flag is set; otherwise
      all this is as before. */
  ghost predicate DedupDone(sha: Hash, a: Image, b: Image, asked: bool)
    requires a.manifest.Some? && b.manifest.Some? && a.device.Some?
  {
    var entries, device, now := a.manifest.value.entries, a.device.value, b.manifest.value;
    if asked then
      && now.flags.dedup && |now.entries| == |entries| && Extends(a.cas, b.cas)
      && (forall i | 0 <= i < |entries| ::
            var c := Chunk(device, entries[i]);
            && sha(c) in b.cas && (now.version >= 2 ==> now.entries[i].hash == sha(c))
            && (Genuine(a.cas, sha) && CollisionFree(sha, a.cas.Values + ChunkSet(entries, device)) ==>
                  b.cas[sha(c)] == c))
      && b.listing.Some?
      && ((forall x :: |sha(x)| == 32) ==> ParseListing(b.listing.value) == Some(ChunkLines(sha, entries, device)))
    else
      && b.cas == a.cas && b.listing == a.listing && now.entries == entries
      && now.flags.dedup == a.manifest.value.flags.dedup
  }

  function ChunkSet(entries: seq<Entry>, device: Bytes): set<Bytes>
  {
    set i | 0 <= i < |entries| :: Chunk(device, entries[i])
  }

  /** Digest, size and pointer of every chunk. */
  function ChunkLines(sha: Hash, entries: seq<Entry>, device: Bytes): seq<Line>
  {
    if entries == [] then []
    else [Line(sha(Chunk(device, entries[0])), entries[0].size, entries[0].ptr)] + ChunkLines(sha, entries[1..], device)
  }

  /** If compression was asked for, device.zst decompresses to device.bin; otherwise it is as before. */
  ghost predicate CompressDone(z: Zstd, a: Image, b: Image, asked: bool)
  {
    if asked then b.zst.Some? && z.dec(b.zst.value) == a.device else b.zst == a.zst
  }

  /** What the stages asked for leave of image a. */
  ghost predicate Outputs(z: Zstd, sha: Hash, a: Image, b: Image, opts: ProcessOpts)
  {
    && a.manifest.Some? && b.manifest.Some? && a.device.Some?
    && b.manifest.value.version == a.manifest.value.version
    && b.manifest.value.flags.rest == a.manifest.value.flags.rest
    && SparseDone(a, b, opts.sparse) && DedupDone(sha, a, b, opts.dedup) && CompressDone(z, a, b, opts.compress)
  }

  /** What neither materialisation nor the delta touches. */
  ghost predicate KeepsOutputs(a: Image, b: Image)
  {
    && a.manifest.Some? && b.manifest.Some? && b.manifest.value.version == a.manifest.value.version
    && b.manifest.value.entries == a.manifest.value.entries && b.manifest.value.flags.rest == a.manifest.value.flags.rest
    && b.manifest.value.flags.sparse == a.manifest.value.flags.sparse
    && b.manifest.value.flags.dedup == a.manifest.value.flags.dedup
    && b.sparse == a.sparse && b.listing == a.listing && b.cas == a.cas && b.zst == a.zst
  }

  function OnlySparse(): ProcessOpts { ProcessOpts(false, true, false, "") }
  function OnlyDedup(): ProcessOpts { ProcessOpts(false, false, true, "") }
  function OnlyCompress(): ProcessOpts { ProcessOpts(true, false, false, "") }

  /** The stages asked for in two steps. */
  function Both(o: ProcessOpts, p: ProcessOpts): ProcessOpts
  {
    ProcessOpts(o.compress || p.compress, o.sparse || p.sparse, o.dedup || p.dedup, o.parent)
  }

  /** Chunks do not depend on digests. */
  lemma {:induction false} LinesIgnoreHashes(sha: Hash, a: seq<Entry>, b: seq<Entry>, device: Bytes)
    requires SameChunks(a, b)
    ensures ChunkLines(sha, b, device) == ChunkLines(sha, a, device)
  {
    if a != [] {
      assert b[0] == a[0].(hash := b[0].hash);
      LinesIgnoreHashes(sha, a[1..], b[1..], device);
    }
  }

  lemma {:induction false} SparseThen(a: Image, b: Image, c: Image, first: bool, second: bool)
    requires a.manifest.Some? && b.manifest.Some? && c.manifest.Some? && a.device.Some? && b.device == a.device
    requires SameChunks(a.manifest.value.entries, b.manifest.value.entries) && !(first && second)
    requires SparseDone(a, b, first) && SparseDone(b, c, second)
    ensures SparseDone(a, c, first || second)
  {
    var x, y, device := a.manifest.value.entries, b.manifest.value.entries, a.device.value;
    forall i | 0 <= i < |x|
      ensures ZeroChunk(y[i], device) == ZeroChunk(x[i], device)
              && Run(y[i].offset, y[i].size) == Run(x[i].offset, x[i].size)
    {
      assert y[i] == x[i].(hash := y[i].hash);
    }
  }

  lemma {:induction false} DedupThen(sha: Hash, a: Image, b: Image, c: Image, first: bool, second: bool)
    requires a.manifest.Some? && b.manifest.Some? && c.manifest.Some? && a.device.Some? && b.device == a.device
    requires SameChunks(a.manifest.value.entries, b.manifest.value.entries) && !(first && second)
    requires c.manifest.value.version == b.manifest.value.version == a.manifest.value.version
    requires DedupDone(sha, a, b, first) && DedupDone(sha, b, c, second)
    ensures DedupDone(sha, a, c, first || second)
  {
    if second {
      var x, y, device := a.manifest.value.entries, b.manifest.value.entries, a.device.value;
      LinesIgnoreHashes(sha, x, y, device);
      forall i | 0 <= i < |x| ensures Chunk(device, y[i]) == Chunk(device, x[i]) {
        assert y[i] == x[i].(hash := y[i].hash);
      }
      assert ChunkSet(y, device) == ChunkSet(x, device);
    }
  }

  lemma {:induction false} OutputsThen(z: Zstd, sha: Hash, a: Image, b: Image, c: Image, o: ProcessOpts, p: ProcessOpts)
    requires Outputs(z, sha, a, b, o) && Outputs(z, sha, b, c, p) && b.device == a.device
    requires SameChunks(a.manifest.value.entries, b.manifest.value.entries)
    requires !(o.sparse && p.sparse) && !(o.dedup && p.dedup) && !(o.compress && p.compress)
    ensures Outputs(z, sha, a, c, Both(o, p))
  {
    SparseThen(a, b, c, o.sparse, p.sparse);
    DedupThen(sha, a, b, c, o.dedup, p.dedup);
  }

  lemma {:induction false} SparseOutputs(z: Zstd, sha: Hash, a: Image)
    requires a.manifest.Some? && a.device.Some?
    ensures var m := a.manifest.value;
            var runs := ZeroRuns(m.entries, a.device.value);
            var b := if runs == [] then a
                     else a.(sparse := Some(runs), manifest := Some(m.(flags := m.flags.(sparse := true))));
            Outputs(z, sha, a, b, OnlySparse()) && Staged(z, a, b)
  {
    var entries, device := a.manifest.value.entries, a.device.value;
    var runs := ZeroRuns(entries, device);
    forall r ensures r in runs <==> Indexes(r, entries, device) {
      IndexedIffZero(entries, device, r);
    }
    if runs != [] { assert runs[0] in runs; }
    if i :| 0 <= i < |entries| && ZeroChunk(entries[i], device) {
      assert Run(entries[i].offset, entries[i].size) in runs;
    }
  }

  lemma {:induction false} LinesOfHashed(sha: Hash, entries: seq<Entry>, device: Bytes, hashed: seq<Entry>)
    requires |hashed| == |entries|
    requires forall i | 0 <= i < |entries| :: hashed[i] == entries[i].(hash := sha(Chunk(device, entries[i])))
    ensures Lines(hashed) == ChunkLines(sha, entries, device)
  {
    if entries != [] {
      LinesOfHashed(sha, entries[1..], device, hashed[1..]);
    }
  }

  lemma {:induction false} ChunksAre(entries: seq<Entry>, device: Bytes)
    requires Readable(entries, device)
    ensures |Chunks(entries, device)| == |entries|
    ensures forall i | 0 <= i < |entries| :: Chunks(entries, device)[i] == Chunk(device, entries[i])
    ensures Contents(Chunks(entries, device)) == ChunkSet(entries, device)
  {
    forall i | 0 <= i < |entries| ensures Chunks(entries, device)[i] == Chunk(device, entries[i]) {
      assert ReadAt(device, entries[i].offset, entries[i].size).Some?;
    }
  }

  lemma {:induction false} StoredChunks(sha: Hash, cas: Blobs, entries: seq<Entry>, device: Bytes, i: nat)
    requires Readable(entries, device) && i < |entries|
    ensures var after, c := StoredAll(cas, sha, Chunks(entries, device)), Chunk(device, entries[i]);
            && Extends(cas, after) && sha(c) in after
            && (Genuine(cas, sha) && CollisionFree(sha, cas.Values + ChunkSet(entries, device)) ==> after[sha(c)] == c)
  {
    var chunks := Chunks(entries, device);
    ChunksAre(entries, device);
    StoredKeeps(cas, sha, chunks);
    assert chunks[i] == Chunk(device, entries[i]);
    if Genuine(cas, sha) && CollisionFree(sha, cas.Values + ChunkSet(entries, device)) {
      StoredFinds(cas, sha, chunks, i);
    }
  }

  lemma {:induction false} PrintedChunks(sha: Hash, entries: seq<Entry>, device: Bytes)
    requires Readable(entries, device)
    ensures forall i | 0 <= i < |entries| :: Hashed(entries, sha, device)[i].hash == sha(Chunk(device, entries[i]))
    ensures (forall x :: |sha(x)| == 32) ==>
              ParseListing(Listing(Hashed(entries, sha, device))) == Some(ChunkLines(sha, entries, device))
  {
    var hashed := Hashed(entries, sha, device);
    ChunksAre(entries, device);
    LinesOfHashed(sha, entries, device, hashed);
    if forall x :: |sha(x)| == 32 { ListingRoundTrip(hashed); }
  }

  lemma {:induction false} DedupOutputs(z: Zstd, sha: Hash, a: Image)
    requires a.manifest.Some? && a.device.Some? && Readable(a.manifest.value.entries, a.device.value)
    ensures var m := a.manifest.value;
            var hashed := Hashed(m.entries, sha, a.device.value);
            var b := a.(cas := StoredAll(a.cas, sha, Chunks(m.entries, a.device.value)),
                        listing := Some(Listing(hashed)),
                        manifest := Some(m.(flags := m.flags.(dedup := true),
                            entries := RecordedAll(m.version, hashed))));
            Outputs(z, sha, a, b, OnlyDedup()) && Staged(z, a, b)
  {
    HashedSame(a.manifest.value.version, a.manifest.value.entries, sha, a.device.value);
    var entries, device := a.manifest.value.entries, a.device.value;
    PrintedChunks(sha, entries, device);
    StoredKeeps(a.cas, sha, Chunks(entries, device));
    forall i | 0 <= i < |entries| { StoredChunks(sha, a.cas, entries, device, i); }
  }

  // ---------- the stages ----------

  method ApplySparse(fs: FileSystem, d: Path) returns (ok: bool)
    modifies fs`dirs
    ensures ok ==> StagedOnly(fs.zstd, old(fs.dirs), fs.dirs, d)
                   && Outputs(fs.zstd, fs.sha, old(fs.dirs)[d], fs.dirs[d], OnlySparse())
    ensures ok <==> d in old(fs.dirs) && var img := old(fs.dirs)[d];
                    img.manifest.Some? && img.device.Some? && LargeReadable(img.manifest.value.entries, img.device.value)
    ensures !ok ==> fs.dirs == old(fs.dirs)
    ensures ok ==>
      var img := old(fs.dirs)[d];
      var m := img.manifest.value;
      var runs := ZeroRuns(m.entries, img.device.value);
      fs.dirs == if runs == [] then old(fs.dirs)
                 else old(fs.dirs)[d := img.(sparse := Some(runs),
                     manifest := Some(m.(flags := m.flags.(sparse := true))))]
  {
    if d !in fs.dirs || fs.dirs[d].manifest.None? || fs.dirs[d].device.None? { return false; }
    var img := fs.dirs[d];
    var m := img.manifest.value;
    var runs := FindZeroRuns(m.entries, img.device.value);
    if runs.None? { return false; }
    SparseOutputs(fs.zstd, fs.sha, img);
    ok := true;
    if runs.value == [] { return; }
    fs.dirs := fs.dirs[d := img.(sparse := runs, manifest := Some(m.(flags := m.flags.(sparse := true))))];
  }

  /** The blobs written before a failure stay. */
  method DedupDevice(fs: FileSystem, d: Path) returns (ok: bool)
    requires Wide(EntriesOf(fs.dirs, d))
    modifies fs`dirs
    ensures ok <==> d in old(fs.dirs) && var img := old(fs.dirs)[d];
                    img.manifest.Some? && img.device.Some? && Readable(img.manifest.value.entries, img.device.value)
    ensures ok ==> StagedOnly(fs.zstd, old(fs.dirs), fs.dirs, d)
                   && Outputs(fs.zstd, fs.sha, old(fs.dirs)[d], fs.dirs[d], OnlyDedup())
    ensures !HasManifest(old(fs.dirs), d) ==> fs.dirs == old(fs.dirs)
    ensures !ok && HasManifest(old(fs.dirs), d) ==>
      exists blobs :: Extends(old(fs.dirs)[d].cas, blobs) && fs.dirs == old(fs.dirs)[d := old(fs.dirs)[d].(cas := blobs)]
    ensures ok ==>
      var img := old(fs.dirs)[d];
      var m := img.manifest.value;
      var hashed := Hashed(m.entries, fs.sha, img.device.value);
      fs.dirs == old(fs.dirs)[d := img.(cas := StoredAll(img.cas, fs.sha, Chunks(m.entries, img.device.value)),
                                        listing := Some(Listing(hashed)),
                                        manifest := Some(m.(flags := m.flags.(dedup := true),
                                            entries := RecordedAll(m.version, hashed))))]
  {
    if d !in fs.dirs { return false; }
    var img := fs.dirs[d];
    assert fs.dirs == fs.dirs[d := img.(cas := img.cas)] && Extends(img.cas, img.cas);
    if img.manifest.None? || img.device.None? { return false; }
    var m := img.manifest.value;
    var cas := new ContentStore(img.cas, fs.sha);
    var hashed := cas.DedupChunks(m.entries, img.device.value);
    if hashed.None? {
      fs.dirs := fs.dirs[d := img.(cas := cas.blobs)];
      return false;
    }
    var text := WriteListing(hashed.value);
    DedupOutputs(fs.zstd, fs.sha, img);
    fs.dirs := fs.dirs[d := img.(cas := cas.blobs, listing := Some(text),
                                 manifest := Some(m.(flags := m.flags.(dedup := true),
                                     entries := RecordedAll(m.version, hashed.value))))];
    ok := true;
  }

  /** In a version 2 image, the blobs that its own entries name are, one after another, its device.bin. */
  lemma {:induction false} DedupedImageIsLossless(sha: Hash, img: Image)
    requires img.manifest.Some? && img.manifest.value.version >= 2 && img.device.Some?
    requires Tiled(img.manifest.value.entries, |img.device.value|) && |img.device.value| < 0x8000_0000_0000_0000
    requires Readable(img.manifest.value.entries, img.device.value) && Genuine(img.cas, sha)
    requires CollisionFree(sha, img.cas.Values + Contents(Chunks(img.manifest.value.entries, img.device.value)))
    ensures var m := img.manifest.value;
            var blobs := StoredAll(img.cas, sha, Chunks(m.entries, img.device.value));
            Concat(Named(blobs, RecordedAll(m.version, Hashed(m.entries, sha, img.device.value)))) == img.device.value
  {
    DedupIsLossless(img.cas, sha, img.manifest.value.entries, img.device.value);
  }

  /** device.zst is written before the manifest is read, so it stays even if that fails. */
  method CompressDevice(fs: FileSystem, d: Path) returns (ok: bool)
    modifies fs`dirs
    ensures ok && Lossless(fs.zstd) ==>
              d in old(fs.dirs) && d in fs.dirs
              && Outputs(fs.zstd, fs.sha, old(fs.dirs)[d], fs.dirs[d], OnlyCompress())
    ensures ok <==> d in old(fs.dirs) && old(fs.dirs)[d].device.Some? && old(fs.dirs)[d].manifest.Some?
    ensures !(d in old(fs.dirs) && old(fs.dirs)[d].device.Some?) ==> fs.dirs == old(fs.dirs)
    ensures d in old(fs.dirs) && old(fs.dirs)[d].device.Some? ==>
      var img := old(fs.dirs)[d];
      var zst := Some(fs.zstd.enc(img.device.value));
      fs.dirs == old(fs.dirs)[d := if img.manifest.None? then img.(zst := zst) else
                                   var m := img.manifest.value;
                                   img.(zst := zst, manifest := Some(m.(flags := m.flags.(compressed := true))))]
  {
    if d !in fs.dirs || fs.dirs[d].device.None? { return false; }
    var img := fs.dirs[d];
    img := img.(zst := Some(fs.zstd.enc(img.device.value)));
    fs.dirs := fs.dirs[d := img];
    if img.manifest.None? { return false; }
    var m := img.manifest.value;
    fs.dirs := fs.dirs[d := img.(manifest := Some(m.(flags := m.flags.(compressed := true))))];
    ok := true;
  }

  /** An image with a delta against a parent. */
  function WithDelta(img: Image, parent: Path, recs: seq<Record>, patch: Bytes): Image
    requires img.manifest.Some?
  {
    var m := img.manifest.value;
    img.(patch := Some(patch), delta := Some(DeltaFile(parent, recs)),
        manifest := Some(m.(flags := m.flags.(delta := true))))
  }

  /** The second half of WriteDelta, when both device.bin are there; spare is the spare capacity behind the
      child's bytes.  Nothing is written if nothing is carried. */
  method InstallDelta(fs: FileSystem, d: Path, parent: Path, spare: Bytes) returns (ok: bool)
    requires d in fs.dirs && fs.dirs[d].manifest.Some? && fs.dirs[d].device.Some?
    requires parent in fs.dirs && fs.dirs[parent].manifest.Some?
    modifies fs`dirs
    ensures var entries, byPtr := EntriesOf(old(fs.dirs), d), ByPtr(EntriesOf(old(fs.dirs), parent));
            var buffer := old(fs.dirs)[d].device.value + spare;
            if CarriedInside(entries, byPtr, |buffer|) then
              var (recs, patch) := Diff(entries, byPtr, buffer);
              ok && fs.dirs == if recs == [] then old(fs.dirs)
                               else old(fs.dirs)[d := WithDelta(old(fs.dirs)[d], parent, recs, patch)]
            else !ok && fs.dirs == old(fs.dirs)
  {
    var m, device := fs.dirs[d].manifest.value, fs.dirs[d].device.value;
    var byPtr := MakeByPtr(fs.dirs[parent].manifest.value.entries);
    var recs, patch;
    ok, recs, patch := MakeDiff(m.entries, byPtr, device + spare);
    if !ok || recs == [] { return; }
    fs.dirs := fs.dirs[d := fs.dirs[d].(patch := Some(patch), delta := Some(DeltaFile(parent, recs)))];
    fs.dirs := fs.dirs[d := fs.dirs[d].(manifest := Some(m.(flags := m.flags.(delta := true))))];
  }

  // ---------- the delta stage ----------

  /** A delta against these parent entries and contents keeps the image: every chunk is skipped, so none is
      written, or the parent serves. */
  ghost predicate DeltaFits(entries: seq<Entry>, device: Bytes, parentEntries: seq<Entry>, base: Bytes)
  {
    AllSkipped(entries, parentEntries) || ParentServes(entries, ByPtr(parentEntries), base, device)
  }

  /** The delta carries nothing, so none is written. */
  ghost predicate AllSkipped(entries: seq<Entry>, parentEntries: seq<Entry>)
  {
    forall i | 0 <= i < |entries| :: Skips(entries[i], ByPtr(parentEntries))
  }

  /** A delta that carries something makes an image a child of its own descendant. */
  ghost predicate Looping(s: Store, rank: Path -> nat, d: Path, parent: Path)
    requires Ranked(s, rank)
  {
    d in Chain(s, rank, parent) && !AllSkipped(EntriesOf(s, d), EntriesOf(s, parent))
  }

  /** The parent that an image has after a successful WriteDelta. */
  ghost function LinkAfter(s: Store, d: Path, parent: Path): Option<Path>
    requires d in s
  {
    if AllSkipped(EntriesOf(s, d), EntriesOf(s, parent)) then Link(s[d]) else Some(parent)
  }

  /** A delta that carries something and skips a chunk whose bytes differ in the parent at the child's
      offset does not keep a tiled image. */
  lemma {:induction false} DifferingChunkIsLost(entries: seq<Entry>, device: Bytes, parentEntries: seq<Entry>,
                                                base: Bytes)
    requires Tiled(entries, |device|)
    ensures Inside(entries, |device|)
    ensures !DeltaFits(entries, device, parentEntries, base) <==>
            && (exists i | 0 <= i < |entries| :: !Skips(entries[i], ByPtr(parentEntries)))
            && (exists i | 0 <= i < |entries| ::
                  Skips(entries[i], ByPtr(parentEntries))
                  && Range(Resize(base, |device|), entries[i]) != Range(device, entries[i]))
  {
    TiledServes(entries, ByPtr(parentEntries), base, device);
  }

  /** The moved chunk of Delta.MovedChunkIsLost is one of them. */
  lemma {:induction false} MovedChunkDoesNotFit()
    ensures !DeltaFits(MovedChild(), [2, 5], MovedParent(), [1, 2])
  {
    MovedChunkIsLost();
    MovedByPtr();
    assert !Skips(MovedChild()[1], ByPtr(MovedParent()));
  }

  /** Nothing changed for images that do not descend from d. */
  ghost predicate OthersKept(z: Zstd, s: Store, t: Store, rank: Path -> nat, d: Path)
    requires Ranked(s, rank) && Ranked(t, rank)
  {
    forall x | d !in Chain(s, rank, x) :: Logical(z, t, rank, x) == Logical(z, s, rank, x)
  }

  lemma {:induction false} LogicalAvoiding(z: Zstd, s: Store, rank: Path -> nat, d: Path, img: Image, x: Path)
    requires d in s && Ranked(s, rank) && Ranked(s[d := img], rank) && d !in Chain(s, rank, x)
    ensures Logical(z, s[d := img], rank, x) == Logical(z, s, rank, x)
    decreases rank(x)
  {
    if x in s && Link(s[x]).Some? {
      LogicalAvoiding(z, s, rank, d, img, Link(s[x]).value);
    }
  }

  lemma {:induction false} OthersKeptByOne(z: Zstd, s: Store, t: Store, rank: Path -> nat, d: Path, img: Image)
    requires Ranked(s, rank) && Ranked(t, rank) && StoreRefreshed(s, t) && d in s && Ranked(t[d := img], rank)
    requires SameContents(z, s, t, rank)
    ensures OthersKept(z, s, t[d := img], rank, d)
  {
    forall x | d !in Chain(s, rank, x) ensures Logical(z, t[d := img], rank, x) == Logical(z, s, rank, x) {
      SameChain(s, t, rank, x);
      LogicalAvoiding(z, t, rank, d, img, x);
    }
  }

  /** Images below d are in harmony as before. */
  lemma {:induction false} HarmonyBelow(z: Zstd, s: Store, rank: Path -> nat, d: Path, img: Image, x: Path)
    requires d in s && Ranked(s, rank) && Ranked(s[d := img], rank) && x != d && rank(x) <= rank(d)
    requires Harmonious(z, s, rank, x)
    ensures Harmonious(z, s[d := img], rank, x)
    decreases rank(x)
  {
    LogicalBelow(z, s, rank, d, img, x);
    if x in s && Link(s[x]).Some? {
      HarmonyBelow(z, s, rank, d, img, Link(s[x]).value);
      LogicalBelow(z, s, rank, d, img, Link(s[x]).value);
    }
  }

  /** What the image stands for once the delta is in place. */
  lemma {:induction false} DeltaInstalled(z: Zstd, t: Store, rank: Path -> nat, d: Path, parent: Path, device: Bytes,
                                          base: Bytes, spare: Bytes)
    requires Ranked(t, rank) && rank(parent) < rank(d) && Harmonious(z, t, rank, parent)
    requires d in t && t[d].manifest.Some? && !t[d].manifest.value.flags.compressed
    requires Logical(z, t, rank, parent) == Some(base)
    requires CarriedInside(EntriesOf(t, d), ByPtr(EntriesOf(t, parent)), |device + spare|)
    ensures var entries, byPtr := EntriesOf(t, d), ByPtr(EntriesOf(t, parent));
            var (recs, patch) := Diff(entries, byPtr, device + spare);
            var u := t[d := WithDelta(t[d], parent, recs, patch)];
            && Ranked(u, rank) && Harmonious(z, u, rank, d)
            && Logical(z, u, rank, d).Some? && |Logical(z, u, rank, d).value| == MaxEnd(entries)
            && (Logical(z, u, rank, d) == Some(device) <==> ParentServes(entries, byPtr, base, device))
  {
    var entries, byPtr := EntriesOf(t, d), ByPtr(EntriesOf(t, parent));
    var (recs, patch) := Diff(entries, byPtr, device + spare);
    var img := WithDelta(t[d], parent, recs, patch);
    assert Link(img) == Some(parent);
    LogicalOfReplaced(z, t, rank, d, img);
    HarmonyBelow(z, t, rank, d, img, parent);
    DeltaExact(entries, byPtr, base, device, spare);
  }

  /** What a call that works on image d may do to the directories: elsewhere it materialises images, at
      most those that d's contents depend on. */
  ghost predicate Confined(s: Store, t: Store, d: Path, needed: set<Path>)
  {
    && t.Keys == s.Keys
    && (forall x | x in s && x != d :: Refreshed(s[x], t[x]))
    && (forall x | x in s && x != d && x !in needed :: t[x] == s[x])
    && (d in s ==> SameRecords(s[d], t[d]))
  }

  /** The images that work on d with a parent may rewrite: of the two chains, those that are not materialised
      yet or descend from d. */
  ghost function Pending(z: Zstd, s: Store, rank: Path -> nat, d: Path, parent: Path): set<Path>
    requires Ranked(s, rank)
  {
    set x | x in Chain(s, rank, parent) + Chain(s, rank, d) && (Settled(z, s, rank, x) ==> d in Chain(s, rank, x))
  }

  lemma {:induction false} ConfinedByTwo(z: Zstd, s: Store, s1: Store, t: Store, rank: Path -> nat, parent: Path,
                                         d: Path)
    requires Ranked(s, rank) && Touches(z, s, s1, rank, parent) && Touches(z, s1, t, rank, d)
    ensures Confined(s, t, d, Pending(z, s, rank, d, parent))
    ensures StoreRefreshed(s, t)
  {
    RefreshedTransitive(s, s1, t);
    SameChain(s, s1, rank, d);
    if d in s {
      assert Refreshed(s[d], t[d]);
    }
    forall x | x in s && x != d && x !in Pending(z, s, rank, d, parent) ensures t[x] == s[x] {
      if Settled(z, s, rank, x) { SettledStays(z, s, s1, rank, parent, x); }
    }
  }

  /** The image, its ancestors and the parent it is compared with. */
  ghost predicate InHarmony(z: Zstd, s: Store, rank: Path -> nat, d: Path, parent: Path)
    requires Ranked(s, rank)
  {
    Harmonious(z, s, rank, d) && (parent != "" ==> Harmonious(z, s, rank, parent))
  }

  /** The first half of WriteDelta: both images get their device.bin. */
  method MaterializeBoth(fs: FileSystem, d: Path, parent: Path, ghost rank: Path -> nat) returns (ok: bool)
    requires Ranked(fs.dirs, rank)
    modifies fs`dirs
    ensures Ranked(fs.dirs, rank) && StoreRefreshed(old(fs.dirs), fs.dirs)
    ensures Confined(old(fs.dirs), fs.dirs, d, Pending(fs.zstd, old(fs.dirs), rank, d, parent))
    ensures ok ==> d in fs.dirs && fs.dirs[d].manifest.Some? && fs.dirs[d].device.Some?
                   && !fs.dirs[d].manifest.value.flags.compressed
                   && parent in fs.dirs && fs.dirs[parent].manifest.Some?
    ensures Harmonious(fs.zstd, old(fs.dirs), rank, d) && Harmonious(fs.zstd, old(fs.dirs), rank, parent) ==>
      && SameContents(fs.zstd, old(fs.dirs), fs.dirs, rank)
      && (ok <==> Logical(fs.zstd, old(fs.dirs), rank, parent).Some? && Logical(fs.zstd, old(fs.dirs), rank, d).Some?)
      && (ok ==> fs.dirs[d].device == Logical(fs.zstd, old(fs.dirs), rank, d) && Settled(fs.zstd, fs.dirs, rank, parent))
  {
    ghost var s := fs.dirs;
    ok := fs.EnsureDeviceMaterialized(parent, rank);
    ghost var s1 := fs.dirs;
    if !ok {
      if d in s { assert Refreshed(s[d], s1[d]); }
      return;
    }
    ok := fs.EnsureDeviceMaterialized(d, rank);
    ghost var t := fs.dirs;
    ConfinedByTwo(fs.zstd, s, s1, t, rank, parent, d);
    assert Refreshed(s1[parent], t[parent]);
    if Harmonious(fs.zstd, s, rank, d) && Harmonious(fs.zstd, s, rank, parent) {
      HarmonyStays(fs.zstd, s, s1, rank, d);
      SettledStays(fs.zstd, s1, t, rank, d, parent);
    }
  }

  /** What WriteDelta has done if the images were in harmony. */
  ghost predicate DeltaWritten(z: Zstd, s: Store, t: Store, rank: Path -> nat, d: Path, parent: Path, spare: Bytes,
      ok: bool)
    requires Ranked(s, rank)
  {
    var entries, byPtr := EntriesOf(s, d), ByPtr(EntriesOf(s, parent));
    var device, base := Logical(z, s, rank, d), Logical(z, s, rank, parent);
    && Ranked(t, rank) && EntriesOf(t, d) == entries && OthersKept(z, s, t, rank, d)
    && (ok <==> base.Some? && device.Some? && CarriedInside(entries, byPtr, |device.value| + |spare|))
    && (!ok ==> SameContents(z, s, t, rank))
    && (ok ==>
          && d in t && t[d].device == device && Harmonious(z, t, rank, d) && Settled(z, t, rank, parent)
          && Logical(z, t, rank, d).Some?
          && (MaxEnd(entries) == |device.value| ==> |Logical(z, t, rank, d).value| == |device.value|)
          && (Logical(z, t, rank, d) == device <==> DeltaFits(entries, device.value, EntriesOf(s, parent), base.value)))
  }

  /** Afterwards the image stands for its old contents if and only if the delta fits; every image that does
      not descend from it is as before.  If the parent descends from the image and something is carried, the
      parent relation gets a cycle, and only then. */
  method WriteDelta(fs: FileSystem, d: Path, parent: Path, spare: Bytes, ghost rank: Path -> nat) returns (ok: bool)
    requires Suits(fs.dirs, rank, d, parent)
    modifies fs`dirs
    ensures if ok && Looping(old(fs.dirs), rank, d, parent) then !Acyclic(fs.dirs) else Ranked(fs.dirs, rank)
    ensures Confined(old(fs.dirs), fs.dirs, d, Pending(fs.zstd, old(fs.dirs), rank, d, parent))
    ensures ok ==> d in fs.dirs && fs.dirs[d].manifest.Some? && !fs.dirs[d].manifest.value.flags.compressed
                   && DeltaLeft(old(fs.dirs), fs.dirs, d, parent)
    ensures Harmonious(fs.zstd, old(fs.dirs), rank, d) && Harmonious(fs.zstd, old(fs.dirs), rank, parent)
            && !Looping(old(fs.dirs), rank, d, parent) ==>
              DeltaWritten(fs.zstd, old(fs.dirs), fs.dirs, rank, d, parent, spare, ok)
  {
    ghost var s := fs.dirs;
    ok := MaterializeBoth(fs, d, parent, rank);
    ghost var t := fs.dirs;
    if !ok {
      return;
    }
    ok := InstallDelta(fs, d, parent, spare);
    InstalledOverall(s, t, fs.dirs, rank, d, parent, spare, Pending(fs.zstd, s, rank, d, parent), ok);
    if Harmonious(fs.zstd, s, rank, d) && Harmonious(fs.zstd, s, rank, parent) && !Looping(s, rank, d, parent) {
      Written(fs.zstd, s, t, fs.dirs, rank, d, parent, spare, ok);
    }
  }

  /** What InstallDelta does to t. */
  ghost predicate Installed(t: Store, u: Store, d: Path, parent: Path, spare: Bytes, ok: bool)
    requires d in t && t[d].manifest.Some? && t[d].device.Some?
  {
    var entries, byPtr := EntriesOf(t, d), ByPtr(EntriesOf(t, parent));
    var buffer := t[d].device.value + spare;
    if CarriedInside(entries, byPtr, |buffer|) then
      var (recs, patch) := Diff(entries, byPtr, buffer);
      ok && u == if recs == [] then t else t[d := WithDelta(t[d], parent, recs, patch)]
    else !ok && u == t
  }

  lemma {:induction false} InstalledLink(t: Store, u: Store, d: Path, parent: Path, spare: Bytes, ok: bool)
    requires d in t && t[d].manifest.Some? && t[d].device.Some? && Installed(t, u, d, parent, spare, ok)
    ensures u.Keys == t.Keys && forall x | x in t && x != d :: u[x] == t[x]
    ensures Link(u[d]) == if ok then LinkAfter(t, d, parent) else Link(t[d])
    ensures KeepsOutputs(t[d], u[d]) && SameRecords(t[d], u[d])
    ensures u[d].manifest.value.flags.compressed == t[d].manifest.value.flags.compressed
    ensures ok ==> (u[d].manifest.value.flags.delta <==>
                      t[d].manifest.value.flags.delta || !AllSkipped(EntriesOf(t, d), EntriesOf(t, parent)))
  {
    var entries, byPtr, buffer := EntriesOf(t, d), ByPtr(EntriesOf(t, parent)), t[d].device.value + spare;
    if CarriedInside(entries, byPtr, |buffer|) {
      EmptyDiffIff(entries, byPtr, buffer);
    }
  }

  /** What a successful WriteDelta leaves of the image. */
  ghost predicate DeltaLeft(s: Store, u: Store, d: Path, parent: Path)
  {
    && d in s && d in u && Link(u[d]) == LinkAfter(s, d, parent) && KeepsOutputs(s[d], u[d])
    && (u[d].manifest.value.flags.delta <==>
          s[d].manifest.value.flags.delta || !AllSkipped(EntriesOf(s, d), EntriesOf(s, parent)))
  }

  lemma {:induction false} InstalledOverall(s: Store, t: Store, u: Store, rank: Path -> nat, d: Path, parent: Path,
                                            spare: Bytes, needed: set<Path>, ok: bool)
    requires Suits(s, rank, d, parent) && StoreRefreshed(s, t) && Confined(s, t, d, needed)
    requires d in t && t[d].manifest.Some? && t[d].device.Some? && !t[d].manifest.value.flags.compressed
    requires Installed(t, u, d, parent, spare, ok)
    ensures if ok && Looping(s, rank, d, parent) then !Acyclic(u) else Ranked(u, rank)
    ensures Confined(s, u, d, needed) && d in u && u[d].manifest.Some? && !u[d].manifest.value.flags.compressed
    ensures ok ==> DeltaLeft(s, u, d, parent)
  {
    InstalledLink(t, u, d, parent, spare, ok);
    assert Refreshed(s[d], t[d]);
    RefreshedPlan(s, t);
    WrittenLinks(s, u, rank, d, parent, ok);
  }

  /** Materialisation changes neither links nor entries. */
  lemma {:induction false} RefreshedPlan(s: Store, t: Store)
    requires StoreRefreshed(s, t)
    ensures forall x | x in s :: Link(t[x]) == Link(s[x])
    ensures forall x :: EntriesOf(t, x) == EntriesOf(s, x)
  {
    forall x | x in s ensures Link(t[x]) == Link(s[x]) && EntriesOf(t, x) == EntriesOf(s, x) {
      assert Refreshed(s[x], t[x]);
    }
  }

  /** The parent relation after the delta. */
  lemma {:induction false} WrittenLinks(s: Store, u: Store, rank: Path -> nat, d: Path, parent: Path, ok: bool)
    requires Suits(s, rank, d, parent) && u.Keys == s.Keys && forall x | x in s && x != d :: Link(u[x]) == Link(s[x])
    requires d in s && Link(u[d]) == if ok then LinkAfter(s, d, parent) else Link(s[d])
    ensures if ok && Looping(s, rank, d, parent) then !Acyclic(u) else Ranked(u, rank)
  {
    if ok && Looping(s, rank, d, parent) {
      CycleHasNoRanking(s, rank, u, d, parent);
    }
  }

  /** From materialised images to the installed delta. */
  lemma {:induction false} Written(z: Zstd, s: Store, t: Store, u: Store, rank: Path -> nat, d: Path, parent: Path,
                                   spare: Bytes, ok: bool)
    requires Suits(s, rank, d, parent) && Ranked(t, rank) && !Looping(s, rank, d, parent)
    requires StoreRefreshed(s, t) && SameContents(z, s, t, rank) && Settled(z, t, rank, parent)
    requires Harmonious(z, s, rank, d) && Harmonious(z, s, rank, parent)
    requires d in t && t[d].manifest.Some? && !t[d].manifest.value.flags.compressed
    requires Logical(z, s, rank, parent).Some? && Logical(z, s, rank, d).Some? && t[d].device == Logical(z, s, rank, d)
    requires Installed(t, u, d, parent, spare, ok)
    ensures DeltaWritten(z, s, u, rank, d, parent, spare, ok)
  {
    var entries, byPtr, device := EntriesOf(t, d), ByPtr(EntriesOf(t, parent)), t[d].device.value;
    HarmonyStays(z, s, t, rank, parent);
    HarmonyStays(z, s, t, rank, d);
    if ok {
      EmptyDiffIff(entries, byPtr, device + spare);
      if Diff(entries, byPtr, device + spare).0 != [] {
        WrittenCarried(z, s, t, rank, d, parent, spare);
      }
    }
  }

  lemma {:induction false} WrittenCarried(z: Zstd, s: Store, t: Store, rank: Path -> nat, d: Path, parent: Path,
                                          spare: Bytes)
    requires Ranked(s, rank) && Ranked(t, rank) && rank(parent) < rank(d)
    requires StoreRefreshed(s, t) && SameContents(z, s, t, rank) && Harmonious(z, t, rank, parent)
    requires Settled(z, t, rank, parent)
    requires EntriesOf(t, d) == EntriesOf(s, d) && EntriesOf(t, parent) == EntriesOf(s, parent)
    requires d in t && t[d].manifest.Some? && !t[d].manifest.value.flags.compressed
    requires Logical(z, s, rank, parent).Some? && Logical(z, s, rank, d).Some? && t[d].device == Logical(z, s, rank, d)
    requires CarriedInside(EntriesOf(t, d), ByPtr(EntriesOf(t, parent)), |t[d].device.value + spare|)
    requires Diff(EntriesOf(t, d), ByPtr(EntriesOf(t, parent)), t[d].device.value + spare).0 != []
    ensures var (recs, patch) := Diff(EntriesOf(t, d), ByPtr(EntriesOf(t, parent)), t[d].device.value + spare);
            DeltaWritten(z, s, t[d := WithDelta(t[d], parent, recs, patch)], rank, d, parent, spare, true)
  {
    var entries, byPtr, device := EntriesOf(t, d), ByPtr(EntriesOf(t, parent)), t[d].device.value;
    var (recs, patch) := Diff(entries, byPtr, device + spare);
    EmptyDiffIff(entries, byPtr, device + spare);
    DeltaInstalled(z, t, rank, d, parent, device, Logical(z, t, rank, parent).value, spare);
    SettledBelow(z, t, rank, d, WithDelta(t[d], parent, recs, patch), parent);
    OthersKeptByOne(z, s, t, rank, d, WithDelta(t[d], parent, recs, patch));
  }

  // ---------- digests do not matter ----------

  lemma {:induction false} DiffIgnoresHashes(a: seq<Entry>, b: seq<Entry>, parent: map<nat, Entry>, buffer: Bytes)
    requires SameChunks(a, b) && CarriedInside(a, parent, |buffer|)
    ensures CarriedInside(b, parent, |buffer|) && Diff(b, parent, buffer) == Diff(a, parent, buffer)
  {
    if a != [] {
      DiffIgnoresHashes(a[..|a| - 1], b[..|b| - 1], parent, buffer);
    }
  }

  lemma {:induction false} MaxEndIgnoresHashes(a: seq<Entry>, b: seq<Entry>)
    requires SameChunks(a, b)
    ensures MaxEnd(b) == MaxEnd(a)
  {
    if a != [] {
      MaxEndIgnoresHashes(a[..|a| - 1], b[..|b| - 1]);
    }
  }

  lemma {:induction false} ByPtrIgnoresHashes(a: seq<Entry>, b: seq<Entry>, e: Entry, f: Entry)
    requires SameChunks(a, b) && f == e.(hash := f.hash)
    ensures Skips(f, ByPtr(b)) == Skips(e, ByPtr(a))
  {
    if a != [] {
      ByPtrIgnoresHashes(a[..|a| - 1], b[..|b| - 1], e, f);
    }
  }

  lemma {:induction false} CarriedIgnoresHashes(a: seq<Entry>, b: seq<Entry>, pa: seq<Entry>, pb: seq<Entry>, p: nat)
    requires SameChunks(a, b) && SameChunks(pa, pb) && Carried(a, ByPtr(pa), p)
    ensures Carried(b, ByPtr(pb), p)
  {
    var i :| 0 <= i < |a| && !Skips(a[i], ByPtr(pa)) && a[i].offset <= p < a[i].offset + a[i].size;
    ByPtrIgnoresHashes(pa, pb, a[i], b[i]);
    assert !Skips(b[i], ByPtr(pb)) && b[i].offset <= p < b[i].offset + b[i].size;
  }

  lemma {:induction false} FitIgnoresHashes(a: seq<Entry>, b: seq<Entry>, device: Bytes, pa: seq<Entry>,
                                            pb: seq<Entry>, base: Bytes)
    requires SameChunks(a, b) && SameChunks(pa, pb)
    ensures AllSkipped(b, pb) <==> AllSkipped(a, pa)
    ensures DeltaFits(b, device, pb, base) <==> DeltaFits(a, device, pa, base)
    ensures forall size: nat :: CarriedInside(b, ByPtr(pb), size) <==> CarriedInside(a, ByPtr(pa), size)
  {
    MaxEndIgnoresHashes(a, b);
    forall i | 0 <= i < |a| ensures Skips(b[i], ByPtr(pb)) == Skips(a[i], ByPtr(pa)) {
      ByPtrIgnoresHashes(pa, pb, a[i], b[i]);
    }
    forall p: nat ensures Carried(b, ByPtr(pb), p) == Carried(a, ByPtr(pa), p) {
      if Carried(a, ByPtr(pa), p) { CarriedIgnoresHashes(a, b, pa, pb, p); }
      if Carried(b, ByPtr(pb), p) { CarriedIgnoresHashes(b, a, pb, pa, p); }
    }
  }

  lemma {:induction false} ReadableIgnoresHashes(a: seq<Entry>, b: seq<Entry>, device: Bytes)
    requires SameChunks(a, b)
    ensures Readable(b, device) <==> Readable(a, device)
    ensures LargeReadable(b, device) <==> LargeReadable(a, device)
  {
    forall i | 0 <= i < |a|
      ensures ReadAt(device, b[i].offset, b[i].size) == ReadAt(device, a[i].offset, a[i].size)
              && Large(b[i]) == Large(a[i])
    {}
  }

  // ---------- the stages before the delta ----------

  /** What these stages keep of an image: the device bytes, the chunks, the delta and, unless it is made
      anew from the device bytes, the compressed form. */
  ghost predicate Staged(z: Zstd, before: Image, now: Image)
  {
    && before.manifest.Some? && now.manifest.Some? && SameRecords(before, now)
    && now.device == before.device && now.delta == before.delta && now.patch == before.patch
    && SameChunks(before.manifest.value.entries, now.manifest.value.entries)
    && now.manifest.value.version == before.manifest.value.version
    && now.manifest.value.flags.delta == before.manifest.value.flags.delta
    && (before.manifest.value.flags.compressed ==> now.manifest.value.flags.compressed)
    && (now.manifest.value.flags.compressed ==>
          (before.manifest.value.flags.compressed && now.zst == before.zst)
          || (now.device.Some? && now.zst == Some(z.enc(now.device.value))))
  }

  ghost predicate StagedOnly(z: Zstd, s: Store, t: Store, d: Path)
  {
    d in s && d in t && Staged(z, s[d], t[d]) && t == s[d := t[d]]
  }

  lemma {:induction false} StagedTwice(z: Zstd, s: Store, t: Store, u: Store, d: Path)
    requires StagedOnly(z, s, t, d) && StagedOnly(z, t, u, d)
    ensures StagedOnly(z, s, u, d)
  {
  }

  /** device.bin is there and up to date. */
  ghost predicate Current(z: Zstd, s: Store, rank: Path -> nat, d: Path)
    requires Ranked(s, rank)
  {
    d in s && s[d].manifest.Some? && s[d].device.Some? && s[d].device == Logical(z, s, rank, d)
  }

  lemma {:induction false} RebuiltIgnoresHashes(a: Image, b: Image, base: Option<Bytes>)
    requires a.manifest.Some? && b.manifest.Some? && b.delta == a.delta && b.patch == a.patch
    requires SameChunks(a.manifest.value.entries, b.manifest.value.entries)
    requires b.manifest.value.flags.delta == a.manifest.value.flags.delta
    ensures Link(b) == Link(a) && Rebuilt(b, base) == Rebuilt(a, base)
  {
    MaxEndIgnoresHashes(a.manifest.value.entries, b.manifest.value.entries);
  }

  /** If device.bin is up to date and the image in harmony, the stages keep both, and what every image
      stands for. */
  lemma {:induction false} StagesKeepContents(z: Zstd, s: Store, t: Store, rank: Path -> nat, d: Path)
    requires Lossless(z) && Ranked(s, rank) && StagedOnly(z, s, t, d) && Current(z, s, rank, d)
        && Harmonious(z, s, rank, d)
    ensures Ranked(t, rank) && SameContents(z, s, t, rank) && Current(z, t, rank, d) && Harmonious(z, t, rank, d)
  {
    RebuiltIgnoresHashes(s[d], t[d], None);
    assert forall x | x in t :: Link(t[x]) == Link(s[x]);
    assert Ranked(t, rank);
    var base := if Link(s[d]).Some? then Logical(z, s, rank, Link(s[d]).value) else None;
    RebuiltIgnoresHashes(s[d], t[d], base);
    LogicalOfReplaced(z, s, rank, d, t[d]);
    assert Own(z, t[d], base) == s[d].device;
    SameContentsByOne(z, s, rank, d, t[d]);
    if Link(s[d]).Some? {
      HarmonyBelow(z, s, rank, d, t[d], Link(s[d]).value);
    }
  }

  ghost predicate HasManifest(s: Store, d: Path)
  {
    d in s && s[d].manifest.Some?
  }

  /** What the stages so far have made of the directories s: without a manifest nothing but device.zst. */
  ghost predicate Track(z: Zstd, s: Store, t: Store, d: Path)
  {
    if HasManifest(s, d) then StagedOnly(z, s, t, d)
    else if d in s then d in t && t == s[d := t[d]] && t[d] == s[d].(zst := t[d].zst)
    else t == s
  }

  ghost predicate Compressed(s: Store, d: Path)
  {
    HasManifest(s, d) && s[d].manifest.value.flags.compressed
  }

  /** What the stages that are done have left of the directories s. */
  ghost predicate Left(z: Zstd, sha: Hash, s: Store, t: Store, d: Path, done: ProcessOpts)
  {
    HasManifest(s, d) && s[d].device.Some? ==> d in t && Outputs(z, sha, s[d], t[d], done)
  }

  lemma {:induction false} LeftThen(z: Zstd, sha: Hash, s: Store, t: Store, u: Store, d: Path, done: ProcessOpts,
                                    stage: ProcessOpts)
    requires Track(z, s, t, d) && Left(z, sha, s, t, d, done) && d in t && d in u && Outputs(z, sha, t[d], u[d], stage)
    requires !(done.sparse && stage.sparse) && !(done.dedup && stage.dedup) && !(done.compress && stage.compress)
    ensures Left(z, sha, s, u, d, Both(done, stage))
  {
    if HasManifest(s, d) && s[d].device.Some? {
      OutputsThen(z, sha, s[d], t[d], u[d], done, stage);
    }
  }

  method StageSparse(fs: FileSystem, d: Path, ghost s: Store, ghost done: ProcessOpts) returns (ok: bool)
    requires Track(fs.zstd, s, fs.dirs, d) && Left(fs.zstd, fs.sha, s, fs.dirs, d, done) && !done.sparse
    modifies fs`dirs
    ensures ok ==> Left(fs.zstd, fs.sha, s, fs.dirs, d, done.(sparse := true))
    ensures Track(fs.zstd, s, fs.dirs, d) && Compressed(fs.dirs, d) == Compressed(old(fs.dirs), d)
    ensures ok <==> HasManifest(s, d) && s[d].device.Some? && LargeReadable(EntriesOf(s, d), s[d].device.value)
  {
    ghost var t := fs.dirs;
    if HasManifest(s, d) && s[d].device.Some? { ReadableIgnoresHashes(EntriesOf(s, d), EntriesOf(t, d),
        s[d].device.value); }
    ok := ApplySparse(fs, d);
    if ok {
      LeftThen(fs.zstd, fs.sha, s, t, fs.dirs, d, done, OnlySparse());
    }
    if HasManifest(s, d) && ok { StagedTwice(fs.zstd, s, t, fs.dirs, d); }
  }

  method StageDedup(fs: FileSystem, d: Path, ghost s: Store, ghost done: ProcessOpts) returns (ok: bool)
    requires Track(fs.zstd, s, fs.dirs, d) && Left(fs.zstd, fs.sha, s, fs.dirs, d, done) && !done.dedup
    requires Wide(EntriesOf(s, d))
    modifies fs`dirs
    ensures ok ==> Left(fs.zstd, fs.sha, s, fs.dirs, d, done.(dedup := true))
    ensures Track(fs.zstd, s, fs.dirs, d) && Compressed(fs.dirs, d) == Compressed(old(fs.dirs), d)
    ensures ok <==> HasManifest(s, d) && s[d].device.Some? && Readable(EntriesOf(s, d), s[d].device.value)
  {
    ghost var t := fs.dirs;
    if HasManifest(s, d) && s[d].device.Some? { ReadableIgnoresHashes(EntriesOf(s, d), EntriesOf(t, d),
        s[d].device.value); }
    ok := DedupDevice(fs, d);
    if ok {
      LeftThen(fs.zstd, fs.sha, s, t, fs.dirs, d, done, OnlyDedup());
    }
    if HasManifest(s, d) {
      if ok { HashedSame(t[d].manifest.value.version, EntriesOf(t, d), fs.sha, t[d].device.value); }
      assert StagedOnly(fs.zstd, t, fs.dirs, d);
      StagedTwice(fs.zstd, s, t, fs.dirs, d);
    }
  }

  lemma {:induction false} HashedSame(version: nat, entries: seq<Entry>, sha: Hash, device: Bytes)
    requires Readable(entries, device)
    ensures SameChunks(entries, RecordedAll(version, Hashed(entries, sha, device)))
  {
  }

  method StageCompress(fs: FileSystem, d: Path, ghost s: Store, ghost done: ProcessOpts) returns (ok: bool)
    requires Track(fs.zstd, s, fs.dirs, d) && Left(fs.zstd, fs.sha, s, fs.dirs, d, done) && !done.compress
    requires Lossless(fs.zstd)
    modifies fs`dirs
    ensures ok ==> Left(fs.zstd, fs.sha, s, fs.dirs, d, done.(compress := true))
    ensures Track(fs.zstd, s, fs.dirs, d)
    ensures ok <==> HasManifest(s, d) && s[d].device.Some?
    ensures ok ==> Compressed(fs.dirs, d)
  {
    ghost var t := fs.dirs;
    ok := CompressDevice(fs, d);
    if ok {
      LeftThen(fs.zstd, fs.sha, s, t, fs.dirs, d, done, OnlyCompress());
    }
    if HasManifest(s, d) {
      assert StagedOnly(fs.zstd, t, fs.dirs, d);
      StagedTwice(fs.zstd, s, t, fs.dirs, d);
    }
  }

  /** The stages asked for find what they read. */
  ghost predicate StagesRun(s: Store, d: Path, opts: ProcessOpts)
  {
    && (opts.sparse || opts.dedup || opts.compress ==> HasManifest(s, d) && s[d].device.Some?)
    && (opts.sparse ==> LargeReadable(EntriesOf(s, d), s[d].device.value))
    && (opts.dedup ==> Readable(EntriesOf(s, d), s[d].device.value))
  }

  /** The stages in order, up to the first that fails. */
  method RunStages(fs: FileSystem, d: Path, opts: ProcessOpts) returns (ok: bool)
    requires Wide(EntriesOf(fs.dirs, d)) && Lossless(fs.zstd)
    modifies fs`dirs
    ensures Track(fs.zstd, old(fs.dirs), fs.dirs, d)
    ensures ok <==> StagesRun(old(fs.dirs), d, opts)
    ensures ok ==> Compressed(fs.dirs, d) == (Compressed(old(fs.dirs), d) || opts.compress)
    ensures ok ==> Left(fs.zstd, fs.sha, old(fs.dirs), fs.dirs, d, opts)
  {
    ghost var s := fs.dirs;
    ghost var done := ProcessOpts(false, false, false, opts.parent);
    ok := true;
    if opts.sparse { ok := StageSparse(fs, d, s, done); done := done.(sparse := true); }
    if ok && opts.dedup { ok := StageDedup(fs, d, s, done); done := done.(dedup := true); }
    if ok && opts.compress { ok := StageCompress(fs, d, s, done); done := done.(compress := true); }
    assert ok ==> done == opts;
  }

  // ---------- the whole pipeline ----------

  lemma {:induction false} TrackKeepsLinks(z: Zstd, s: Store, t: Store, rank: Path -> nat, d: Path)
    requires Track(z, s, t, d) && Ranked(s, rank)
    ensures Ranked(t, rank)
    ensures forall x :: Chain(t, rank, x) == Chain(s, rank, x)
    ensures forall x :: SameChunks(EntriesOf(s, x), EntriesOf(t, x))
    ensures d in s ==> d in t && Link(t[d]) == Link(s[d])
  {
    assert s.Keys == t.Keys;
    assert forall x :: ParentOf(t, x) == ParentOf(s, x);
    forall x ensures Chain(t, rank, x) == Chain(s, rank, x) {
      SameParentsSameChain(s, t, rank, x);
    }
  }

  /** The stages before the delta do not change what the delta may rewrite, or whether it makes a cycle. */
  lemma {:induction false} TrackKeepsPlan(z: Zstd, s: Store, t: Store, rank: Path -> nat, d: Path, parent: Path)
    requires Track(z, s, t, d) && Ranked(s, rank) && Ranked(t, rank)
    requires forall x :: Chain(t, rank, x) == Chain(s, rank, x)
    requires forall x :: SameChunks(EntriesOf(s, x), EntriesOf(t, x))
    ensures Pending(z, t, rank, d, parent) == Pending(z, s, rank, d, parent)
    ensures Looping(t, rank, d, parent) == Looping(s, rank, d, parent)
    ensures AllSkipped(EntriesOf(t, d), EntriesOf(t, parent)) == AllSkipped(EntriesOf(s, d), EntriesOf(s, parent))
  {
    FitIgnoresHashes(EntriesOf(s, d), EntriesOf(t, d), [], EntriesOf(s, parent), EntriesOf(t, parent), []);
    forall x | d !in Chain(s, rank, x) ensures Settled(z, t, rank, x) == Settled(z, s, rank, x) {
      SameAlongChain(z, s, rank, t, rank, x);
    }
  }

  lemma {:induction false} TrackConfines(z: Zstd, s: Store, t: Store, u: Store, d: Path, needed: set<Path>)
    requires Track(z, s, t, d) && Confined(t, u, d, needed)
    ensures Confined(s, u, d, needed)
  {
  }

  ghost predicate BothFlags(s: Store, d: Path)
  {
    HasManifest(s, d) && s[d].manifest.value.flags.compressed && s[d].manifest.value.flags.delta
  }

  /** The conditions under which processing keeps what an image stands for: its device.bin is up to date,
      and it, its ancestors and the parent it is compared with are in harmony. */
  ghost predicate Processable(z: Zstd, s: Store, rank: Path -> nat, d: Path, parent: Path)
    requires Ranked(s, rank)
  {
    Current(z, s, rank, d) && InHarmony(z, s, rank, d, parent)
  }

  /** The parent asked for stands for something, and what the delta carries can be sliced out. */
  ghost predicate ParentUsable(z: Zstd, s: Store, rank: Path -> nat, d: Path, parent: Path, spare: Bytes)
    requires Ranked(s, rank) && HasManifest(s, d) && s[d].device.Some?
  {
    parent == "" ||
    (Logical(z, s, rank, parent).Some?
     && CarriedInside(EntriesOf(s, d), ByPtr(EntriesOf(s, parent)), |s[d].device.value| + |spare|))
  }

  /** No delta is asked for, or it fits. */
  ghost predicate KeepsImage(z: Zstd, s: Store, rank: Path -> nat, d: Path, parent: Path)
    requires Ranked(s, rank) && HasManifest(s, d) && s[d].device.Some?
  {
    parent == "" ||
    (Logical(z, s, rank, parent).Some?
     && DeltaFits(EntriesOf(s, d), s[d].device.value, EntriesOf(s, parent), Logical(z, s, rank, parent).value))
  }

  /** What ProcessImage has done to a processable image. */
  ghost predicate Processed(z: Zstd, s: Store, t: Store, rank: Path -> nat, d: Path, opts: ProcessOpts, spare: Bytes,
      ok: bool)
    requires Ranked(s, rank) && HasManifest(s, d) && s[d].device.Some?
  {
    && Ranked(t, rank) && OthersKept(z, s, t, rank, d) && SameChunks(EntriesOf(s, d), EntriesOf(t, d))
    && (ok <==> StagesRun(s, d, opts) && ParentUsable(z, s, rank, d, opts.parent, spare))
    && (ok ==>
          && d in t && t[d].device == s[d].device && Harmonious(z, t, rank, d)
          && (opts.parent != "" ==> Settled(z, t, rank, opts.parent))
          && (Compressed(t, d) ==> t[d].zst.Some?)
          && (BothFlags(t, d) <==>
                opts.parent == "" && s[d].manifest.value.flags.delta && (Compressed(s, d) || opts.compress))
          && Logical(z, t, rank, d).Some?
          && (MaxEnd(EntriesOf(s, d)) == |s[d].device.value| ==> |Logical(z, t, rank, d).value| == |s[d].device.value|)
          && (Logical(z, t, rank, d) == s[d].device <==> KeepsImage(z, s, rank, d, opts.parent)))
  }

  /** The ranking is fit for the delta asked for, if any. */
  ghost predicate Fit(s: Store, rank: Path -> nat, d: Path, opts: ProcessOpts)
  {
    Ranked(s, rank) && (opts.parent != "" ==> Suits(s, rank, d, opts.parent))
  }

  /** The delta asked for makes a cycle. */
  ghost predicate Cyclic(s: Store, rank: Path -> nat, d: Path, opts: ProcessOpts)
    requires Ranked(s, rank)
  {
    opts.parent != "" && Looping(s, rank, d, opts.parent)
  }

  /** The two flags that say how device.bin is to be had: a new delta has taken the compressed form apart. */
  ghost predicate FlagsLeft(s: Store, t: Store, d: Path, opts: ProcessOpts)
    requires HasManifest(s, d)
  {
    && HasManifest(t, d)
    && (t[d].manifest.value.flags.compressed <==>
          opts.parent == "" && (s[d].manifest.value.flags.compressed || opts.compress))
    && (t[d].manifest.value.flags.delta <==>
          s[d].manifest.value.flags.delta
          || (opts.parent != "" && !AllSkipped(EntriesOf(s, d), EntriesOf(s, opts.parent))))
  }

  /** For every combination of options: the stages asked for leave their files and flags and the others none,
      the chunks stay what they were, images that do not descend from
      this one are untouched, the image stands for its device bytes unless a delta was asked for that does
      not fit, and it has both flags only if it was a delta and none was asked for.  A delta against a
      descendant of the image, if it carries something, makes a cycle instead. */
  method ProcessImage(fs: FileSystem, d: Path, opts: ProcessOpts, spare: Bytes,
                      ghost rank: Path -> nat) returns (ok: bool)
    requires Lossless(fs.zstd) && Fit(fs.dirs, rank, d, opts) && Wide(EntriesOf(fs.dirs, d))
    modifies fs`dirs
    ensures if ok && Cyclic(old(fs.dirs), rank, d, opts) then !Acyclic(fs.dirs) else Ranked(fs.dirs, rank)
    ensures Confined(old(fs.dirs), fs.dirs, d,
                     if opts.parent == "" then {} else Pending(fs.zstd, old(fs.dirs), rank, d, opts.parent))
    ensures ok && d in old(fs.dirs) ==>
              d in fs.dirs && Link(fs.dirs[d]) ==
              if opts.parent == "" then Link(old(fs.dirs)[d]) else LinkAfter(old(fs.dirs), d, opts.parent)
    ensures ok ==> Left(fs.zstd, fs.sha, old(fs.dirs), fs.dirs, d, opts)
    ensures ok && HasManifest(old(fs.dirs), d) ==> FlagsLeft(old(fs.dirs), fs.dirs, d, opts)
    ensures Processable(fs.zstd, old(fs.dirs), rank, d, opts.parent) && !Cyclic(old(fs.dirs), rank, d, opts) ==>
              Processed(fs.zstd, old(fs.dirs), fs.dirs, rank, d, opts, spare, ok)
  {
    ghost var s := fs.dirs;
    ok := RunStages(fs, d, opts);
    if ok && opts.parent != "" {
      ok := StageDelta(fs, d, opts, spare, rank, s);
    } else {
      ProcessedAlone(fs.zstd, s, fs.dirs, rank, d, opts, spare, ok);
    }
  }

  /** The delta leaves what the other stages have left. */
  lemma {:induction false} DeltaKeepsLeft(z: Zstd, sha: Hash, s: Store, t: Store, u: Store, d: Path, opts: ProcessOpts)
    requires Track(z, s, t, d) && Left(z, sha, s, t, d, opts) && opts.parent != "" && DeltaLeft(t, u, d, opts.parent)
    requires AllSkipped(EntriesOf(t, d), EntriesOf(t, opts.parent))
             == AllSkipped(EntriesOf(s, d), EntriesOf(s, opts.parent))
    requires !u[d].manifest.value.flags.compressed
    ensures Left(z, sha, s, u, d, opts)
    ensures HasManifest(s, d) ==> FlagsLeft(s, u, d, opts)
  {
  }

  /** The delta, after all stages asked for have run on the directories s. */
  method StageDelta(fs: FileSystem, d: Path, opts: ProcessOpts, spare: Bytes, ghost rank: Path -> nat, ghost s: Store)
    returns (ok: bool)
    requires Lossless(fs.zstd) && Suits(s, rank, d, opts.parent) && opts.parent != ""
    requires Track(fs.zstd, s, fs.dirs, d) && StagesRun(s, d, opts)
    requires Left(fs.zstd, fs.sha, s, fs.dirs, d, opts)
    modifies fs`dirs
    ensures ok ==> Left(fs.zstd, fs.sha, s, fs.dirs, d, opts)
    ensures ok && HasManifest(s, d) ==> FlagsLeft(s, fs.dirs, d, opts)
    ensures if ok && Looping(s, rank, d, opts.parent) then !Acyclic(fs.dirs) else Ranked(fs.dirs, rank)
    ensures Confined(s, fs.dirs, d, Pending(fs.zstd, s, rank, d, opts.parent))
    ensures ok && d in s ==> d in fs.dirs && Link(fs.dirs[d]) == LinkAfter(s, d, opts.parent)
    ensures Processable(fs.zstd, s, rank, d, opts.parent) && !Looping(s, rank, d, opts.parent) ==>
              Processed(fs.zstd, s, fs.dirs, rank, d, opts, spare, ok)
  {
    ghost var t := fs.dirs;
    TrackKeepsLinks(fs.zstd, s, t, rank, d);
    TrackKeepsPlan(fs.zstd, s, t, rank, d, opts.parent);
    ok := WriteDelta(fs, d, opts.parent, spare, rank);
    TrackConfines(fs.zstd, s, t, fs.dirs, d, Pending(fs.zstd, s, rank, d, opts.parent));
    if ok { DeltaKeepsLeft(fs.zstd, fs.sha, s, t, fs.dirs, d, opts); }
    if Processable(fs.zstd, s, rank, d, opts.parent) && !Looping(s, rank, d, opts.parent) {
      ProcessedWithDelta(fs.zstd, s, t, fs.dirs, rank, d, opts, spare, ok);
    }
  }

  lemma {:induction false} ProcessedAlone(z: Zstd, s: Store, t: Store, rank: Path -> nat, d: Path, opts: ProcessOpts,
                                          spare: Bytes, ok: bool)
    requires Lossless(z) && Ranked(s, rank)
    requires Track(z, s, t, d) && (ok <==> StagesRun(s, d, opts)) && (!ok || opts.parent == "")
    requires ok ==> Compressed(t, d) == (Compressed(s, d) || opts.compress)
    ensures Ranked(t, rank) && Confined(s, t, d, {}) && (d in s ==> d in t && Link(t[d]) == Link(s[d]))
    ensures Processable(z, s, rank, d, opts.parent) ==> Processed(z, s, t, rank, d, opts, spare, ok)
  {
    TrackKeepsLinks(z, s, t, rank, d);
    if Processable(z, s, rank, d, opts.parent) {
      StagesKeepContents(z, s, t, rank, d);
    }
  }

  /** The stages keep every image in harmony. */
  lemma {:induction false} HarmonyThroughStages(z: Zstd, s: Store, t: Store, rank: Path -> nat, d: Path, x: Path)
    requires Ranked(s, rank) && Ranked(t, rank) && SameContents(z, s, t, rank) && StagedOnly(z, s, t, d)
    requires Link(t[d]) == Link(s[d]) && Harmonious(z, t, rank, d) && Harmonious(z, s, rank, x)
    ensures Harmonious(z, t, rank, x)
    decreases rank(x)
  {
    if x != d && x in s && Link(s[x]).Some? {
      HarmonyThroughStages(z, s, t, rank, d, Link(s[x]).value);
    }
  }

  lemma {:induction false} ProcessedWithDelta(z: Zstd, s: Store, t: Store, u: Store, rank: Path -> nat, d: Path,
                                              opts: ProcessOpts, spare: Bytes, ok: bool)
    requires Lossless(z) && Ranked(s, rank) && Ranked(t, rank) && Processable(z, s, rank, d, opts.parent)
    requires Track(z, s, t, d) && StagesRun(s, d, opts) && opts.parent != ""
    requires Harmonious(z, t, rank, d) && Harmonious(z, t, rank, opts.parent) ==>
               DeltaWritten(z, t, u, rank, d, opts.parent, spare, ok)
    requires ok ==> HasManifest(u, d) && !u[d].manifest.value.flags.compressed
    requires forall x :: Chain(t, rank, x) == Chain(s, rank, x)
    requires SameChunks(EntriesOf(s, opts.parent), EntriesOf(t, opts.parent)) && Link(t[d]) == Link(s[d])
    ensures Processed(z, s, u, rank, d, opts, spare, ok)
  {
    StagesKeepContents(z, s, t, rank, d);
    HarmonyThroughStages(z, s, t, rank, d, opts.parent);
    MaxEndIgnoresHashes(EntriesOf(s, d), EntriesOf(t, d));
    FitIgnoresHashes(EntriesOf(s, d), EntriesOf(t, d), s[d].device.value,
                     EntriesOf(s, opts.parent), EntriesOf(t, opts.parent),
                     if Logical(z, s, rank, opts.parent).Some? then Logical(z, s, rank, opts.parent).value else []);
  }

  /** Processing an image and materialising it again leaves device.bin byte for byte as it was, and every
      pointer, size, offset, checksum and order, if and only if no delta was asked for or the delta fits.
      After a delta that makes a cycle the materialisation would not end. */
  method ProcessThenMaterialize(fs: FileSystem, d: Path, opts: ProcessOpts, spare: Bytes, ghost rank: Path -> nat)
    returns (processed: bool, materialized: bool)
    requires Lossless(fs.zstd) && Fit(fs.dirs, rank, d, opts) && Wide(EntriesOf(fs.dirs, d))
    requires !Cyclic(fs.dirs, rank, d, opts)
    modifies fs`dirs
    ensures Ranked(fs.dirs, rank)
    ensures Processable(fs.zstd, old(fs.dirs), rank, d, opts.parent) ==>
      && (processed <==>
            StagesRun(old(fs.dirs), d, opts) && ParentUsable(fs.zstd, old(fs.dirs), rank, d, opts.parent, spare))
      && SameChunks(EntriesOf(old(fs.dirs), d), EntriesOf(fs.dirs, d))
      && OthersKept(fs.zstd, old(fs.dirs), fs.dirs, rank, d)
      && (processed ==>
            && materialized && d in fs.dirs
            && (fs.dirs[d].device == old(fs.dirs)[d].device <==> KeepsImage(fs.zstd, old(fs.dirs), rank, d,
                opts.parent)))
  {
    materialized := false;
    ghost var s := fs.dirs;
    processed := ProcessImage(fs, d, opts, spare, rank);
    ghost var t := fs.dirs;
    if !processed { return; }
    materialized := fs.EnsureDeviceMaterialized(d, rank);
  }
}
