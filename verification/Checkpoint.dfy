/** doCheckpoint and its retries (pkg/control/orchestrator.go, pkg/control/queue.go), the conditions a
    restore asks for (pkg/control/preflight.go), and the whole way from live device memory to a published
    image and back. */
module Checkpoint {
  import opened Bytes
  import opened Memory
  import opened Format
  import opened Delta
  import opened Sparse
  import opened MetaFile
  import opened ImageStore
  import opened Pipeline
  import opened Coalesce
  import CopyOutcome
  import opened Snapshot
  import opened Restore
  import opened RoundTrip
  import opened Publish
  import opened Verify
  import PP = PinnedPool

  /** What one attempt meets outside of the image store: the shim's answers, the live allocations and
      device memory of the process, what a failing snapshot leaves behind, CRIU's answer, dev.bin, the
      environment variables and the spare capacity of the buffer that holds device.bin. */
  datatype Attempt = Attempt(frozen: bool, allocs: seq<AllocRec>, gpu: Mem, host: Mem, pool: seq<PP.Buf>,
                             hardware: nat, env: Environment, debris: Debris, dumped: bool, pid: nat, dev: Option<nat>,
                             preload: Bytes, visible: Bytes, spare: Bytes)

  /** Partly written files of a snapshot. */
  datatype Debris = Debris(device: Option<Bytes>, manifest: Option<seq<Entry>>)

  datatype CheckpointError = FreezeFailed | SnapshotFailed(code: int) | VerifyFailed | ProcessFailed | DumpFailed

  ghost predicate Sane(a: Attempt)
  {
    && LiveAllocs(a.allocs) && PP.Valid(a.pool) && (a.env.unsupported.Some? ==> a.env.unsupported.value > 0)
    && TotalSize(a.allocs) < 0x8000_0000_0000_0000
  }

  function NoFlags(): Flags
  {
    Flags(false, false, false, false, 0)
  }

  /** What the shim's snapshot leaves in the staging directory. */
  function SnapshotImage(device: Bytes, manifest: seq<Entry>, dev: Option<nat>): Image
  {
    EmptyImage().(manifest := Some(Manifest(2, NoFlags(), manifest)), device := Some(device), dev := dev)
  }

  function DebrisImage(d: Debris): Image
  {
    EmptyImage().(device := d.device,
                  manifest := if d.manifest.Some? then Some(Manifest(2, NoFlags(), d.manifest.value)) else None)
  }

  /** The record of the process; dev is the number in dev.bin, if it could be read. */
  function MetaOf(a: Attempt, dev: Option<nat>): Meta
  {
    Meta(2, 0, a.pid, if dev.Some? then dev.value else 0, a.preload, a.visible)
  }

  /** What CRIU and the orchestrator add: the record names the process, the device of the snapshot, the library
      it was started with and the devices it saw. */
  ghost predicate RecordsOf(a: Attempt, img: Image)
  {
    && img.criu && img.dev == a.dev && img.meta.Some?
    && var meta := img.meta.value;
       && meta.version == 2 && meta.flags == 0
       && meta.pid == a.pid && meta.preload == a.preload && meta.visible == a.visible
       && (a.dev.None? ==> meta.dev == 0) && (a.dev.Some? ==> meta.dev == a.dev.value)
  }

  function Dumped(a: Attempt, img: Image): Image
  {
    img.(criu := true, meta := Some(MetaOf(a, img.dev)))
  }

  /** The bytes and entries of a snapshot fit together, so every stage finds what it reads and slices. */
  lemma {:induction false} SnapshotFitsStages(crc: Checksum, a: Attempt, parent: map<nat, Entry>)
    requires Sane(a)
    ensures var entries, device := NaiveManifest(crc, a.gpu, a.allocs, 0), NaiveDevice(a.gpu, a.allocs);
            && Wide(entries) && Readable(entries, device) && LargeReadable(entries, device)
            && MaxEnd(entries) == |device| && CarriedInside(entries, parent, |device| + |a.spare|)
  {
    var entries, device := NaiveManifest(crc, a.gpu, a.allocs, 0), NaiveDevice(a.gpu, a.allocs);
    NaiveTiles(crc, a.gpu, a.allocs);
    NaiveDeviceSize(a.gpu, a.allocs);
    ChunksOfTiled(entries, device);
    MaxEndTiled(entries, |device|);
    SnapshotIsWide(crc, a);
  }

  lemma {:induction false} SnapshotIsWide(crc: Checksum, a: Attempt)
    requires Sane(a)
    ensures Wide(NaiveManifest(crc, a.gpu, a.allocs, 0))
  {
    forall i | 0 <= i < |a.allocs| { NaiveEntryAt(crc, a.gpu, a.allocs, 0, i); }
  }

  // ---------- images whose chain avoids the changed directories ----------

  /** The images that depend on none of some directories. */
  ghost predicate Unrelated(s: Store, rank: Path -> nat, away: set<Path>, x: Path)
    requires Ranked(s, rank)
  {
    Chain(s, rank, x) !! away
  }

  /** Unrelated images stand for the same contents and have the same chain. */
  ghost predicate UnrelatedKept(z: Zstd, s: Store, t: Store, rank: Path -> nat, away: set<Path>)
    requires Ranked(s, rank) && Ranked(t, rank)
  {
    forall x | Unrelated(s, rank, away, x) :: KeptFor(z, s, t, rank, x)
  }

  /** What is kept for one image. */
  ghost predicate KeptFor(z: Zstd, s: Store, t: Store, rank: Path -> nat, x: Path)
    requires Ranked(s, rank) && Ranked(t, rank)
  {
    && Logical(z, t, rank, x) == Logical(z, s, rank, x) && Chain(t, rank, x) == Chain(s, rank, x)
    && EntriesOf(t, x) == EntriesOf(s, x) && (Harmonious(z, s, rank, x) ==> Harmonious(z, t, rank, x))
  }

  lemma {:induction false} UnrelatedTransitive(z: Zstd, s: Store, t: Store, u: Store, rank: Path -> nat, near: set<Path>,
                                               away: set<Path>)
    requires Ranked(s, rank) && Ranked(t, rank) && Ranked(u, rank) && near <= away
    requires UnrelatedKept(z, s, t, rank, near) && UnrelatedKept(z, t, u, rank, away)
    ensures UnrelatedKept(z, s, u, rank, away)
  {
    forall x | Unrelated(s, rank, away, x) ensures KeptFor(z, s, u, rank, x) {
      assert Unrelated(s, rank, near, x);
      assert KeptFor(z, s, t, rank, x);
      assert Unrelated(t, rank, away, x);
      assert KeptFor(z, t, u, rank, x);
    }
  }

  /** Creating, removing or rewriting directories does not reach images unrelated to them. */
  lemma {:induction false} UnrelatedByDirs(z: Zstd, s: Store, t: Store, rank: Path -> nat, away: set<Path>)
    requires Ranked(s, rank) && Ranked(t, rank)
    requires forall y | y !in away :: Lookup(t, y) == Lookup(s, y)
    ensures UnrelatedKept(z, s, t, rank, away)
  {
    forall x | Unrelated(s, rank, away, x) ensures KeptFor(z, s, t, rank, x) {
      SameAlongChain(z, s, rank, t, rank, x);
      assert x in Chain(s, rank, x);
      assert Lookup(t, x) == Lookup(s, x);
    }
  }

  lemma {:induction false} ChainAvoiding(s: Store, t: Store, rank: Path -> nat, d: Path, x: Path)
    requires Ranked(s, rank) && Ranked(t, rank) && s.Keys == t.Keys
    requires forall y | y in s && y != d :: Link(t[y]) == Link(s[y])
    requires d !in Chain(s, rank, x)
    ensures Chain(t, rank, x) == Chain(s, rank, x)
    decreases rank(x)
  {
    if x in s && Link(s[x]).Some? {
      ChainAvoiding(s, t, rank, d, Link(s[x]).value);
    }
  }

  /** Images that do not descend from d stay in harmony through work on d. */
  lemma {:induction false} HarmonyAvoiding(z: Zstd, s: Store, t: Store, rank: Path -> nat, d: Path, needed: set<Path>,
                                           x: Path)
    requires Ranked(s, rank) && Ranked(t, rank) && Harmonious(z, s, rank, x)
    requires OthersKept(z, s, t, rank, d) && Confined(s, t, d, needed) && d !in Chain(s, rank, x)
    ensures Harmonious(z, t, rank, x)
    decreases rank(x)
  {
    if x in s {
      assert x in Chain(s, rank, x) && Refreshed(s[x], t[x]);
      assert Link(t[x]) == Link(s[x]);
      if Link(s[x]).Some? {
        HarmonyAvoiding(z, s, t, rank, d, needed, Link(s[x]).value);
      }
    }
  }

  lemma {:induction false} UnrelatedByWork(z: Zstd, s: Store, t: Store, rank: Path -> nat, d: Path, needed: set<Path>)
    requires Ranked(s, rank) && Ranked(t, rank)
    requires OthersKept(z, s, t, rank, d) && Confined(s, t, d, needed)
    ensures UnrelatedKept(z, s, t, rank, {d})
  {
    forall y | y in s && y != d ensures Link(t[y]) == Link(s[y]) && EntriesOf(t, y) == EntriesOf(s, y) {
      assert Refreshed(s[y], t[y]);
    }
    forall x | Unrelated(s, rank, {d}, x) ensures KeptFor(z, s, t, rank, x) {
      ChainAvoiding(s, t, rank, d, x);
      assert x in Chain(s, rank, x);
      if Harmonious(z, s, rank, x) { HarmonyAvoiding(z, s, t, rank, d, needed, x); }
    }
  }

  // ---------- the directories around an attempt ----------

  /** The directories once an old staging directory is removed. */
  function Cleared(s: Store, dest: Path): Store
  {
    s - {StageDir(dest)}
  }

  function WithEmptyStaging(s: Store, dest: Path): Store
  {
    Cleared(s, dest)[StageDir(dest) := EmptyImage()]
  }

  /** A ranking for a checkpoint: the parent comes before the destination and before the staging directory,
      unless it descends from them. */
  ghost predicate GoodRank(s: Store, rank: Path -> nat, dest: Path, parent: Path)
  {
    Ranked(s, rank) && (parent != "" ==> Suits(s, rank, dest, parent) && Suits(s, rank, StageDir(dest), parent))
  }

  /** Every store without cycles has one. */
  lemma {:induction false} GoodRankExists(s: Store, dest: Path, parent: Path)
    requires Acyclic(s)
    ensures exists rank: Path -> nat :: GoodRank(s, rank, dest, parent)
  {
    var rank: Path -> nat :| Ranked(s, rank);
    var staging, z := StageDir(dest), Zstd(b => b, b => Some(b));
    var first := if dest in Chain(s, rank, parent) then rank else Above(s, rank, dest, parent);
    AboveRanks(s, rank, dest, parent);
    SameAlongChain(z, s, rank, s, first, parent);
    var next := if staging in Chain(s, first, parent) then first else Above(s, first, staging, parent);
    AboveRanks(s, first, staging, parent);
    SameAlongChain(z, s, first, s, next, parent);
    assert GoodRank(s, next, dest, parent);
  }

  /** The parent does not descend from the staging directory. */
  ghost predicate Apart(s: Store, rank: Path -> nat, dest: Path, parent: Path)
    requires Ranked(s, rank)
  {
    parent != "" ==> StageDir(dest) !in Chain(s, rank, parent)
  }

  /** What an attempt may do to images other than the two directories: materialise them, and only ancestors
      of the parent that are not materialised yet. */
  ghost predicate Mended(z: Zstd, s: Store, t: Store, rank: Path -> nat, parent: Path)
    requires Ranked(s, rank)
  {
    && StoreRefreshed(s, t)
    && (forall x | x in s && (parent == "" || x !in Chain(s, rank, parent) || Settled(z, s, rank, x)) :: t[x] == s[x])
  }

  lemma {:induction false} RefreshedStaysRanked(s: Store, t: Store, rank: Path -> nat)
    requires Ranked(s, rank) && StoreRefreshed(s, t)
    ensures Ranked(t, rank)
  {
    RefreshedPlan(s, t);
  }

  lemma {:induction false} MendedTwice(z: Zstd, s: Store, t: Store, u: Store, rank: Path -> nat, parent: Path)
    requires Ranked(s, rank) && Mended(z, s, t, rank, parent) && Ranked(t, rank) && Mended(z, t, u, rank, parent)
    ensures Mended(z, s, u, rank, parent)
  {
    RefreshedTransitive(s, t, u);
    SameChain(s, t, rank, parent);
    forall x | x in s && Settled(z, s, rank, x) ensures u[x] == s[x] {
      forall y | y in Chain(s, rank, x) ensures Lookup(t, y) == Lookup(s, y) {
        SettledAncestors(z, s, rank, x, y);
      }
      SameAlongChain(z, s, rank, t, rank, x);
      assert x in Chain(s, rank, x);
      assert Lookup(t, x) == Lookup(s, x);
    }
  }

  // ---------- one attempt ----------

  /** A finished staging directory: the process's memory as device.bin, a manifest of its allocations, and
      the records that a restore asks for. */
  ghost predicate BuiltFrom(crc: Checksum, a: Attempt, img: Image)
  {
    && img.manifest.Some? && img.device == Some(NaiveDevice(a.gpu, a.allocs))
    && SameChunks(NaiveManifest(crc, a.gpu, a.allocs, 0), img.manifest.value.entries)
    && (img.manifest.value.flags.compressed ==> img.zst.Some?)
    && RecordsOf(a, img)
  }

  /** What the transformations asked for have made of the snapshot: their files, and exactly their flags. */
  ghost predicate StagedAs(z: Zstd, sha: Bytes -> Bytes, crc: Checksum, a: Attempt, opts: ProcessOpts, img: Image)
  {
    var entries, device := NaiveManifest(crc, a.gpu, a.allocs, 0), NaiveDevice(a.gpu, a.allocs);
    && Outputs(z, sha, SnapshotImage(device, entries, a.dev), img, opts)
    && var m := img.manifest.value;
       && m.version == 2 && m.flags.rest == 0 && m.flags.dedup == opts.dedup
       && (m.flags.sparse <==> opts.sparse && exists i :: 0 <= i < |entries| && ZeroChunk(entries[i], device))
       && (m.flags.compressed <==> opts.compress && opts.parent == "")
       && (m.flags.delta <==> Link(img).Some?)
  }

  /** The delta that was asked for, if any, rebuilds the process's memory from the parent. */
  ghost predicate ParentFits(z: Zstd, crc: Checksum, a: Attempt, s: Store, rank: Path -> nat, parent: Path)
    requires Ranked(s, rank)
  {
    parent == "" ||
    (&& Logical(z, s, rank, parent).Some?
     && DeltaFits(NaiveManifest(crc, a.gpu, a.allocs, 0), NaiveDevice(a.gpu, a.allocs), EntriesOf(s, parent),
                  Logical(z, s, rank, parent).value))
  }

  /** Directory d stands for something of the size of the memory of the process, and for that memory exactly
      when the parent fits. */
  ghost predicate StandsForMemory(z: Zstd, crc: Checksum, a: Attempt, before: Store, after: Store, rank: Path -> nat,
                                  parent: Path, d: Path)
    requires Ranked(before, rank) && Ranked(after, rank)
  {
    && Logical(z, after, rank, d).Some? && |Logical(z, after, rank, d).value| == |NaiveDevice(a.gpu, a.allocs)|
    && (Logical(z, after, rank, d) == Some(NaiveDevice(a.gpu, a.allocs)) <==> ParentFits(z, crc, a, before, rank,
        parent))
  }

  ghost predicate ParentInHarmony(z: Zstd, s: Store, rank: Path -> nat, parent: Path)
    requires Ranked(s, rank)
  {
    parent != "" ==> Harmonious(z, s, rank, parent)
  }

  /** The parent is in harmony and does not descend from the staging directory. */
  ghost predicate Trusted(z: Zstd, s: Store, rank: Path -> nat, dest: Path, parent: Path)
    requires Ranked(s, rank)
  {
    Apart(s, rank, dest, parent) && ParentInHarmony(z, s, rank, parent)
  }

  ghost predicate ParentThere(z: Zstd, s: Store, rank: Path -> nat, parent: Path)
    requires Ranked(s, rank)
  {
    parent != "" ==> Logical(z, s, rank, parent).Some?
  }

  /** A delta is asked for and has something to carry. */
  ghost predicate Carries(crc: Checksum, a: Attempt, s: Store, parent: Path)
  {
    parent != "" && !AllSkipped(NaiveManifest(crc, a.gpu, a.allocs, 0), EntriesOf(s, parent))
  }

  /** What is asked of the parent does not change with what is kept for it. */
  lemma {:induction false} SameParent(z: Zstd, crc: Checksum, a: Attempt, s: Store, t: Store, rank: Path -> nat,
                                      dest: Path, parent: Path)
    requires Ranked(s, rank) && Ranked(t, rank) && UnrelatedKept(z, s, t, rank, {StageDir(dest)})
    requires Apart(s, rank, dest, parent)
    ensures ParentFits(z, crc, a, s, rank, parent) == ParentFits(z, crc, a, t, rank, parent)
    ensures ParentThere(z, s, rank, parent) == ParentThere(z, t, rank, parent)
    ensures Carries(crc, a, s, parent) == Carries(crc, a, t, parent)
    ensures ParentInHarmony(z, s, rank, parent) ==> ParentInHarmony(z, t, rank, parent)
    ensures parent != "" ==> Chain(t, rank, parent) == Chain(s, rank, parent)
  {
    if parent != "" {
      assert Unrelated(s, rank, {StageDir(dest)}, parent);
      assert KeptFor(z, s, t, rank, parent);
    }
  }

  /** The validation accepts a snapshot and changes nothing. */
  method VerifySnapshot(fs: FileSystem, crc: Checksum, d: Path, ghost a: Attempt,
                        ghost rank: Path -> nat) returns (ok: bool)
    requires Sane(a) && Ranked(fs.dirs, rank) && d in fs.dirs
    requires fs.dirs[d] == SnapshotImage(NaiveDevice(a.gpu, a.allocs), NaiveManifest(crc, a.gpu, a.allocs, 0), a.dev)
    modifies fs`dirs
    ensures ok && fs.dirs == old(fs.dirs)
  {
    ghost var t := fs.dirs;
    assert Link(t[d]).None?;
    NaiveDeviceSize(a.gpu, a.allocs);
    SnapshotVerifies(crc, a.gpu, a.allocs);
    assert Settled(fs.zstd, t, rank, d);
    ok := VerifyImage(fs, crc, d, rank);
    assert fs.dirs == t;
  }

  /** The shim's snapshot and the validation of what it wrote.  It succeeds exactly when the snapshot does;
      otherwise the staging directory has what the failing snapshot left there. */
  method SnapshotInto(fs: FileSystem, crc: Checksum, d: Path, a: Attempt, ghost rank: Path -> nat)
    returns (err: Option<CheckpointError>, ghost refused: bool)
    requires Sane(a) && Ranked(fs.dirs, rank)
    requires d in fs.dirs && fs.dirs[d] == EmptyImage()
    modifies fs`dirs
    ensures Ranked(fs.dirs, rank)
    ensures err.None? <==> AllWell(a.env) && NoEmptyBlock(a.allocs) && !refused
    ensures err.Some? ==> err.value.SnapshotFailed?
    ensures a.env.willing ==> !refused
    ensures fs.dirs == old(fs.dirs)[d :=
      if err.None? then SnapshotImage(NaiveDevice(a.gpu, a.allocs), NaiveManifest(crc, a.gpu, a.allocs, 0), a.dev)
      else DebrisImage(a.debris)]
  {
    var rc, device, manifest, after;
    ghost var run;
    rc, device, manifest, after, run := SnapshotWrite(crc, a.allocs, a.gpu, a.host, a.pool, a.hardware, a.env);
    refused := CopyOutcome.Refused(SnapshotJob(crc, a.gpu, Blocks(a.allocs)),
        SnapshotStart(Blocks(a.allocs), a.host, a.pool, a.hardware), run);
    if rc != 0 {
      fs.dirs := fs.dirs[d := DebrisImage(a.debris)];
      return Some(SnapshotFailed(rc)), refused;
    }
    fs.dirs := fs.dirs[d := SnapshotImage(device, manifest, a.dev)];
    var ok := VerifySnapshot(fs, crc, d, a, rank);
    if !ok { return Some(VerifyFailed), refused; }
    err := None;
  }

  /** What the builder has achieved, s being the directories before it, if the parent is in harmony. */
  ghost predicate BuildDone(z: Zstd, crc: Checksum, a: Attempt, s: Store, t: Store, rank: Path -> nat, dest: Path,
                            parent: Path, ok: bool)
    requires Ranked(s, rank)
  {
    && Ranked(t, rank) && UnrelatedKept(z, s, t, rank, {StageDir(dest)})
    && (ok ==>
          && StageDir(dest) in t
          && BuiltFrom(crc, a, Dumped(a, t[StageDir(dest)]))
          && StandsForMemory(z, crc, a, s, t, rank, parent, StageDir(dest))
          && (parent != "" ==> Settled(z, t, rank, parent)))
  }

  /** The parent that the finished staging directory has. */
  ghost predicate BuiltLink(crc: Checksum, a: Attempt, s: Store, t: Store, rank: Path -> nat, dest: Path, parent: Path)
    requires Ranked(s, rank)
  {
    && StageDir(dest) in t
    && (Link(t[StageDir(dest)]).Some? ==> parent != "" && Link(t[StageDir(dest)]) == Some(parent))
    && (Apart(s, rank, dest, parent) ==> (Link(t[StageDir(dest)]).Some? <==> Carries(crc, a, s, parent)))
  }

  ghost function WithSnapshot(crc: Checksum, a: Attempt, s: Store, dest: Path): Store
  {
    s[StageDir(dest) := SnapshotImage(NaiveDevice(a.gpu, a.allocs), NaiveManifest(crc, a.gpu, a.allocs, 0), a.dev)]
  }

  /** The snapshot in the staging directory changes no chain, and nothing for images unrelated to it. */
  lemma {:induction false} SnapshotKeeps(z: Zstd, crc: Checksum, a: Attempt, s: Store, rank: Path -> nat, dest: Path,
                                         opts: ProcessOpts)
    requires Fit(s, rank, StageDir(dest), opts) && StageDir(dest) in s && s[StageDir(dest)] == EmptyImage()
    ensures var t := WithSnapshot(crc, a, s, dest);
            && Fit(t, rank, StageDir(dest), opts) && UnrelatedKept(z, s, t, rank, {StageDir(dest)})
            && (forall x :: Chain(t, rank, x) == Chain(s, rank, x))
  {
    var t := WithSnapshot(crc, a, s, dest);
    assert Ranked(t, rank);
    UnrelatedByDirs(z, s, t, rank, {StageDir(dest)});
    forall x ensures Chain(t, rank, x) == Chain(s, rank, x) {
      SameParentsSameChain(s, t, rank, x);
    }
  }

  /** A snapshot image without links is processable. */
  lemma {:induction false} SnapshotIsProcessable(z: Zstd, crc: Checksum, a: Attempt, s: Store, rank: Path -> nat,
                                                 dest: Path, opts: ProcessOpts)
    requires Sane(a) && Fit(s, rank, StageDir(dest), opts) && StageDir(dest) in s && s[StageDir(dest)] == EmptyImage()
    requires Apart(s, rank, dest, opts.parent) && ParentInHarmony(z, s, rank, opts.parent)
    ensures var t := WithSnapshot(crc, a, s, dest);
            && Fit(t, rank, StageDir(dest), opts) && Processable(z, t, rank, StageDir(dest), opts.parent)
            && !Cyclic(t, rank, StageDir(dest), opts)
  {
    var t := WithSnapshot(crc, a, s, dest);
    SnapshotKeeps(z, crc, a, s, rank, dest, opts);
    SameParent(z, crc, a, s, t, rank, dest, opts.parent);
    assert Link(t[StageDir(dest)]).None?;
  }

  /** From the result of the pipeline to that of the builder. */
  lemma {:induction false} ProcessedIsBuilt(z: Zstd, crc: Checksum, a: Attempt, s: Store, t: Store, rank: Path -> nat,
                                            dest: Path, opts: ProcessOpts, needed: set<Path>, ok: bool)
    requires Sane(a) && Fit(s, rank, StageDir(dest), opts) && StageDir(dest) in s && s[StageDir(dest)] == EmptyImage()
    requires Apart(s, rank, dest, opts.parent) && Ranked(WithSnapshot(crc, a, s, dest), rank)
    requires var snap := WithSnapshot(crc, a, s, dest);
             && Processed(z, snap, t, rank, StageDir(dest), opts, a.spare, ok)
             && Confined(snap, t, StageDir(dest), needed)
    ensures BuildDone(z, crc, a, s, t, rank, dest, opts.parent, ok)
    ensures ok <==> ParentThere(z, s, rank, opts.parent)
  {
    var d, snap := StageDir(dest), WithSnapshot(crc, a, s, dest);
    SnapshotKeeps(z, crc, a, s, rank, dest, opts);
    SnapshotSeesParent(z, crc, a, s, rank, dest, opts.parent);
    UnrelatedByWork(z, snap, t, rank, d, needed);
    UnrelatedTransitive(z, s, snap, t, rank, {d}, {d});
  }

  /** What processing a snapshot needs and keeps, in terms of the directories before it. */
  lemma {:induction false} SnapshotSeesParent(z: Zstd, crc: Checksum, a: Attempt, s: Store, rank: Path -> nat,
                                              dest: Path, parent: Path)
    requires Sane(a) && Ranked(s, rank) && Apart(s, rank, dest, parent) && StageDir(dest) in s
    requires var snap := WithSnapshot(crc, a, s, dest);
             Ranked(snap, rank) && UnrelatedKept(z, s, snap, rank, {StageDir(dest)})
    ensures var d, snap := StageDir(dest), WithSnapshot(crc, a, s, dest);
            && HasManifest(snap, d) && snap[d].device.Some?
            && (forall opts: ProcessOpts :: StagesRun(snap, d, opts))
            && (ParentUsable(z, snap, rank, d, parent, a.spare) <==> ParentThere(z, s, rank, parent))
            && (KeepsImage(z, snap, rank, d, parent) <==> ParentFits(z, crc, a, s, rank, parent))
            && MaxEnd(EntriesOf(snap, d)) == |snap[d].device.value|
  {
    var snap := WithSnapshot(crc, a, s, dest);
    SnapshotFitsStages(crc, a, ByPtr(EntriesOf(s, parent)));
    SameParent(z, crc, a, s, snap, rank, dest, parent);
    if parent != "" {
      assert parent in Chain(s, rank, parent);
      assert EntriesOf(snap, parent) == EntriesOf(s, parent);
    }
  }

  /** A materialised image does not depend on the staging directory, so work on the snapshot spares it. */
  lemma {:induction false} SettledIsNotPending(z: Zstd, s: Store, t: Store, rank: Path -> nat, d: Path, parent: Path,
                                               x: Path)
    requires Ranked(s, rank) && Ranked(t, rank) && d !in s && Settled(z, s, rank, x)
    requires forall y | y != d :: Lookup(t, y) == Lookup(s, y)
    ensures x !in Pending(z, t, rank, d, parent) && x != d
  {
    forall y | y in Chain(s, rank, x) ensures y != d && Lookup(t, y) == Lookup(s, y) {
      SettledAncestors(z, s, rank, x, y);
    }
    SameAlongChain(z, s, rank, t, rank, x);
    assert x in Chain(s, rank, x);
  }

  /** Work on the snapshot stays within what an attempt may do. */
  lemma {:induction false} ConfinedIsMended(z: Zstd, crc: Checksum, a: Attempt, s: Store, t: Store, rank: Path -> nat,
                                            dest: Path, opts: ProcessOpts)
    requires Fit(s, rank, StageDir(dest), opts) && StageDir(dest) in s && s[StageDir(dest)] == EmptyImage()
    requires Ranked(Cleared(s, dest), rank) && Ranked(WithSnapshot(crc, a, s, dest), rank)
    requires var snap := WithSnapshot(crc, a, s, dest);
             Confined(snap, t, StageDir(dest),
                      if opts.parent == "" then {} else Pending(z, snap, rank, StageDir(dest), opts.parent))
    ensures Mended(z, Cleared(s, dest), Cleared(t, dest), rank, opts.parent) && BuilderMayDo(dest, s, t)
  {
    var d, base, snap := StageDir(dest), Cleared(s, dest), WithSnapshot(crc, a, s, dest);
    forall x ensures Chain(snap, rank, x) == Chain(base, rank, x) {
      SameParentsSameChain(base, snap, rank, x);
    }
    forall x | x in base && (opts.parent == "" || x !in Chain(base, rank, opts.parent) || Settled(z, base, rank, x))
      ensures t[x] == s[x]
    {
      if Settled(z, base, rank, x) { SettledIsNotPending(z, base, snap, rank, d, opts.parent, x); }
      assert Chain(snap, rank, d) == {d};
      assert t[x] == snap[x];
    }
    forall x | x in base ensures Refreshed(base[x], Cleared(t, dest)[x]) {
      assert Refreshed(snap[x], t[x]);
    }
  }

  lemma {:induction false} LinkIsBuilt(crc: Checksum, a: Attempt, s: Store, t: Store, rank: Path -> nat, dest: Path,
                                       parent: Path)
    requires Ranked(s, rank) && StageDir(dest) in s && StageDir(dest) in t
    requires Link(t[StageDir(dest)]) ==
             if parent == "" then None else LinkAfter(WithSnapshot(crc, a, s, dest), StageDir(dest), parent)
    ensures BuiltLink(crc, a, s, t, rank, dest, parent)
  {
    var snap := WithSnapshot(crc, a, s, dest);
    assert Link(snap[StageDir(dest)]).None?;
    if Apart(s, rank, dest, parent) && parent != "" {
      assert parent in Chain(s, rank, parent);
      assert EntriesOf(snap, parent) == EntriesOf(s, parent);
    }
  }

  lemma {:induction false} OutputsAreStaged(z: Zstd, sha: Bytes -> Bytes, crc: Checksum, a: Attempt, s: Store, t: Store,
                                            d: Path, opts: ProcessOpts)
    requires d in s && d in t
    requires s[d] == SnapshotImage(NaiveDevice(a.gpu, a.allocs), NaiveManifest(crc, a.gpu, a.allocs, 0), a.dev)
    requires Left(z, sha, s, t, d, opts) && FlagsLeft(s, t, d, opts)
    requires Link(t[d]) == if opts.parent == "" then None else LinkAfter(s, d, opts.parent)
    ensures StagedAs(z, sha, crc, a, opts, t[d])
  {
  }

  /** The transformations of the snapshot just taken, s being the directories before it. */
  method ProcessStaging(fs: FileSystem, crc: Checksum, dest: Path, a: Attempt, opts: ProcessOpts,
                        ghost rank: Path -> nat, ghost s: Store)
    returns (ok: bool)
    requires Sane(a) && Lossless(fs.zstd) && Fit(s, rank, StageDir(dest), opts) && Ranked(Cleared(s, dest), rank)
    requires StageDir(dest) in s && s[StageDir(dest)] == EmptyImage() && fs.dirs == WithSnapshot(crc, a, s, dest)
    modifies fs`dirs
    ensures BuilderMayDo(dest, s, fs.dirs)
    ensures Mended(fs.zstd, Cleared(s, dest), Cleared(fs.dirs, dest), rank, opts.parent)
    ensures Apart(s, rank, dest, opts.parent) ==> Ranked(fs.dirs, rank)
    ensures ok ==> BuiltLink(crc, a, s, fs.dirs, rank, dest, opts.parent)
    ensures ok ==> StagedAs(fs.zstd, fs.sha, crc, a, opts, fs.dirs[StageDir(dest)])
    ensures ok ==> fs.dirs[StageDir(dest)].dev == a.dev
    ensures Apart(s, rank, dest, opts.parent) && ParentInHarmony(fs.zstd, s, rank, opts.parent) ==>
              && BuildDone(fs.zstd, crc, a, s, fs.dirs, rank, dest, opts.parent, ok)
              && (ok <==> ParentThere(fs.zstd, s, rank, opts.parent))
  {
    var d := StageDir(dest);
    ghost var snap := fs.dirs;
    SnapshotFitsStages(crc, a, map[]);
    SnapshotKeeps(fs.zstd, crc, a, s, rank, dest, opts);
    ok := ProcessImage(fs, d, opts, a.spare, rank);
    if ok { OutputsAreStaged(fs.zstd, fs.sha, crc, a, snap, fs.dirs, d, opts); }
    ConfinedIsMended(fs.zstd, crc, a, s, fs.dirs, rank, dest, opts);
    if ok { LinkIsBuilt(crc, a, s, fs.dirs, rank, dest, opts.parent); }
    if Apart(s, rank, dest, opts.parent) && ParentInHarmony(fs.zstd, s, rank, opts.parent) {
      SnapshotIsProcessable(fs.zstd, crc, a, s, rank, dest, opts);
      ProcessedIsBuilt(fs.zstd, crc, a, s, fs.dirs, rank, dest, opts,
                       if opts.parent == "" then {} else Pending(fs.zstd, snap, rank, d, opts.parent), ok);
    }
  }

  /** CRIU's dump and meta.bin. */
  method AddRecords(fs: FileSystem, dest: Path, a: Attempt)
    requires StageDir(dest) in fs.dirs
    modifies fs`dirs
    ensures fs.dirs == WithRecords(a, old(fs.dirs), dest)
  {
    var d := StageDir(dest);
    fs.dirs := fs.dirs[d := fs.dirs[d].(criu := true)];
    var dev := fs.dirs[d].dev;
    fs.dirs := fs.dirs[d := fs.dirs[d].(meta := Some(MetaOf(a, dev)))];
  }

  ghost function WithRecords(a: Attempt, t: Store, dest: Path): Store
    requires StageDir(dest) in t
  {
    t[StageDir(dest) := Dumped(a, t[StageDir(dest)])]
  }

  lemma {:induction false} RecordsKeepStaged(z: Zstd, sha: Bytes -> Bytes, crc: Checksum, a: Attempt, opts: ProcessOpts,
                                             img: Image)
    requires StagedAs(z, sha, crc, a, opts, img)
    ensures StagedAs(z, sha, crc, a, opts, Dumped(a, img))
  {
    assert Link(Dumped(a, img)) == Link(img);
  }

  lemma {:induction false} RecordsKeepShape(crc: Checksum, a: Attempt, s: Store, t: Store, rank: Path -> nat,
                                            dest: Path, parent: Path)
    requires Ranked(s, rank) && BuilderMayDo(dest, s, t) && BuiltLink(crc, a, s, t, rank, dest, parent)
    requires t[StageDir(dest)].dev == a.dev
    ensures var u := WithRecords(a, t, dest);
            && BuilderMayDo(dest, s, u) && BuiltLink(crc, a, s, u, rank, dest, parent)
            && Cleared(u, dest) == Cleared(t, dest) && RecordsOf(a, u[StageDir(dest)])
  {
    var u := WithRecords(a, t, dest);
    assert Link(u[StageDir(dest)]) == Link(t[StageDir(dest)]);
  }

  /** Files that materialisation does not read. */
  lemma {:induction false} RecordsDoNotMatter(z: Zstd, crc: Checksum, a: Attempt, s: Store, t: Store, rank: Path -> nat,
                                              dest: Path, parent: Path)
    requires Ranked(s, rank) && Apart(s, rank, dest, parent) && BuildDone(z, crc, a, s, t, rank, dest, parent, true)
    ensures BuildDone(z, crc, a, s, WithRecords(a, t, dest), rank, dest, parent, true)
  {
    var d := StageDir(dest);
    var img := Dumped(a, t[d]);
    var u := t[d := img];
    assert Ranked(u, rank);
    LogicalOfReplaced(z, t, rank, d, img);
    LogicalOfReplaced(z, t, rank, d, t[d]);
    assert t[d := t[d]] == t;
    UnrelatedByDirs(z, t, u, rank, {d});
    UnrelatedTransitive(z, s, t, u, rank, {d}, {d});
    if parent != "" {
      assert Unrelated(s, rank, {d}, parent) && KeptFor(z, s, t, rank, parent);
      SameAlongChain(z, t, rank, u, rank, parent);
    }
  }

  /** The attempt succeeds as far as process, shim and CRIU are concerned. */
  ghost predicate Cooperates(a: Attempt, refused: bool)
  {
    a.frozen && AllWell(a.env) && NoEmptyBlock(a.allocs) && !refused && a.dumped
  }

  /** Everything works except CRIU's dump. */
  ghost predicate OnlyDumpFails(a: Attempt, refused: bool)
  {
    Cooperates(a.(dumped := true), refused) && !a.dumped
  }

  /** How the builder ends if the parent is in harmony. */
  ghost predicate BuildOutcome(z: Zstd, crc: Checksum, a: Attempt, s: Store, t: Store, rank: Path -> nat, dest: Path,
                               parent: Path, refused: bool, err: Option<CheckpointError>)
    requires Ranked(s, rank)
  {
    && (err.None? <==> Cooperates(a, refused) && ParentThere(z, s, rank, parent))
    && (err == Some(DumpFailed) <==> OnlyDumpFails(a, refused) && ParentThere(z, s, rank, parent))
    && BuildDone(z, crc, a, s, t, rank, dest, parent, err.None?)
    && (err == Some(DumpFailed) && parent != "" ==> Settled(z, t, rank, parent))
  }

  /** Which step an error names. */
  ghost predicate ErrorNames(a: Attempt, refused: bool, err: Option<CheckpointError>)
  {
    && (err == Some(FreezeFailed) <==> !a.frozen)
    && (err.Some? && err.value.SnapshotFailed? <==>
          a.frozen && !(AllWell(a.env) && NoEmptyBlock(a.allocs) && !refused))
    && (err == Some(DumpFailed) ==> !a.dumped)
    && err != Some(VerifyFailed)
  }

  /** A builder that fails before the transformations. */
  lemma {:induction false} NothingBuilt(z: Zstd, crc: Checksum, a: Attempt, s: Store, t: Store, rank: Path -> nat,
                                        dest: Path, parent: Path, refused: bool, err: Option<CheckpointError>)
    requires Ranked(s, rank) && Ranked(t, rank) && Ranked(Cleared(s, dest), rank)
    requires StageDir(dest) in s && StageDir(dest) in t
    requires t == s[StageDir(dest) := t[StageDir(dest)]] && !t[StageDir(dest)].complete
    requires err.Some? && err != Some(DumpFailed)
    requires !(a.frozen && AllWell(a.env) && NoEmptyBlock(a.allocs) && !refused)
    ensures BuildOutcome(z, crc, a, s, t, rank, dest, parent, refused, err)
    ensures BuilderMayDo(dest, s, t) && Mended(z, Cleared(s, dest), Cleared(t, dest), rank, parent)
  {
    UnrelatedByDirs(z, s, t, rank, {StageDir(dest)});
    assert Cleared(t, dest) == Cleared(s, dest);
  }

  /** The builder from the transformations on, s being the directories before the snapshot. */
  method FinishStaging(fs: FileSystem, crc: Checksum, dest: Path, a: Attempt, opts: ProcessOpts,
                       ghost rank: Path -> nat, ghost s: Store, ghost refused: bool)
    returns (err: Option<CheckpointError>)
    requires Sane(a) && Lossless(fs.zstd) && Fit(s, rank, StageDir(dest), opts) && Ranked(Cleared(s, dest), rank)
    requires StageDir(dest) in s && s[StageDir(dest)] == EmptyImage() && fs.dirs == WithSnapshot(crc, a, s, dest)
    requires a.frozen && AllWell(a.env) && NoEmptyBlock(a.allocs) && !refused
    modifies fs`dirs
    ensures err in {None, Some(ProcessFailed), Some(DumpFailed)} && (err == Some(DumpFailed) ==> !a.dumped)
    ensures BuilderMayDo(dest, s, fs.dirs)
    ensures Mended(fs.zstd, Cleared(s, dest), Cleared(fs.dirs, dest), rank, opts.parent)
    ensures err.None? ==>
      && a.dumped && BuiltLink(crc, a, s, fs.dirs, rank, dest, opts.parent)
      && RecordsOf(a, fs.dirs[StageDir(dest)]) && StagedAs(fs.zstd, fs.sha, crc, a, opts, fs.dirs[StageDir(dest)])
    ensures Apart(s, rank, dest, opts.parent) && ParentInHarmony(fs.zstd, s, rank, opts.parent) ==>
              BuildOutcome(fs.zstd, crc, a, s, fs.dirs, rank, dest, opts.parent, refused, err)
  {
    var ok := ProcessStaging(fs, crc, dest, a, opts, rank, s);
    ghost var t := fs.dirs;
    if !ok { return Some(ProcessFailed); }
    if !a.dumped { return Some(DumpFailed); }
    AddRecords(fs, dest, a);
    RecordsKeepShape(crc, a, s, t, rank, dest, opts.parent);
    RecordsKeepStaged(fs.zstd, fs.sha, crc, a, opts, t[StageDir(dest)]);
    if Apart(s, rank, dest, opts.parent) && ParentInHarmony(fs.zstd, s, rank, opts.parent) {
      RecordsDoNotMatter(fs.zstd, crc, a, s, t, rank, dest, opts.parent);
    }
    err := None;
  }

  /** The function that WriteStaging runs on the staging directory. */
  method BuildImage(fs: FileSystem, crc: Checksum, dest: Path, a: Attempt, opts: ProcessOpts, ghost rank: Path -> nat)
    returns (err: Option<CheckpointError>, ghost refused: bool)
    requires Sane(a) && Lossless(fs.zstd)
    requires Fit(fs.dirs, rank, StageDir(dest), opts) && Ranked(Cleared(fs.dirs, dest), rank)
    requires StageDir(dest) in fs.dirs && fs.dirs[StageDir(dest)] == EmptyImage()
    modifies fs`dirs
    ensures BuilderMayDo(dest, old(fs.dirs), fs.dirs)
    ensures Mended(fs.zstd, Cleared(old(fs.dirs), dest), Cleared(fs.dirs, dest), rank, opts.parent)
    ensures a.env.willing ==> !refused
    ensures ErrorNames(a, refused, err)
    ensures err.None? ==>
      && Cooperates(a, refused) && BuiltLink(crc, a, old(fs.dirs), fs.dirs, rank, dest, opts.parent)
      && RecordsOf(a, fs.dirs[StageDir(dest)]) && StagedAs(fs.zstd, fs.sha, crc, a, opts, fs.dirs[StageDir(dest)])
    ensures Trusted(fs.zstd, old(fs.dirs), rank, dest, opts.parent) ==>
              BuildOutcome(fs.zstd, crc, a, old(fs.dirs), fs.dirs, rank, dest, opts.parent, refused, err)
  {
    ghost var s := fs.dirs;
    refused := false;
    if !a.frozen {
      assert s[StageDir(dest) := s[StageDir(dest)]] == s;
      NothingBuilt(fs.zstd, crc, a, s, s, rank, dest, opts.parent, refused, Some(FreezeFailed));
      return Some(FreezeFailed), refused;
    }
    err, refused := SnapshotInto(fs, crc, StageDir(dest), a, rank);
    if err.Some? {
      NothingBuilt(fs.zstd, crc, a, s, fs.dirs, rank, dest, opts.parent, refused, err);
      return;
    }
    err := FinishStaging(fs, crc, dest, a, opts, rank, s, refused);
  }

  // ---------- publication ----------

  /** The directories after a rename of the finished staging directory to the destination. */
  function Moved(t: Store, dest: Path): Store
    requires StageDir(dest) in t
  {
    (t - {StageDir(dest), dest})[dest := t[StageDir(dest)].(complete := true)]
  }

  method Finalize(fs: FileSystem, dest: Path)
    requires StageDir(dest) in fs.dirs
    modifies fs`dirs
    ensures fs.dirs == Moved(old(fs.dirs), dest)
  {
    var staging := StageDir(dest);
    fs.dirs := fs.dirs[staging := fs.dirs[staging].(complete := true)];
    fs.dirs := fs.dirs - {dest};
    fs.dirs := (fs.dirs - {staging})[dest := fs.dirs[staging]];
  }

  lemma {:induction false} MoveKeepsStaged(z: Zstd, sha: Bytes -> Bytes, crc: Checksum, a: Attempt, opts: ProcessOpts,
                                           t: Store, dest: Path)
    requires StageDir(dest) in t && RecordsOf(a, t[StageDir(dest)]) && StagedAs(z, sha, crc, a, opts, t[StageDir(dest)])
    ensures var img := Moved(t, dest)[dest];
            img.complete && RecordsOf(a, img) && StagedAs(z, sha, crc, a, opts, img)
  {
    assert Link(Moved(t, dest)[dest]) == Link(t[StageDir(dest)]);
  }

  /** An old staging directory is removed and a new one made. */
  lemma {:induction false} StartOfAttempt(z: Zstd, s: Store, rank: Path -> nat, dest: Path, opts: ProcessOpts)
    requires GoodRank(Cleared(s, dest), rank, dest, opts.parent)
    ensures Fit(WithEmptyStaging(s, dest), rank, StageDir(dest), opts)
    ensures UnrelatedKept(z, Cleared(s, dest), WithEmptyStaging(s, dest), rank, {StageDir(dest)})
    ensures forall x :: Chain(WithEmptyStaging(s, dest), rank, x) == Chain(Cleared(s, dest), rank, x)
    ensures Cleared(WithEmptyStaging(s, dest), dest) == Cleared(s, dest)
  {
    var base, t := Cleared(s, dest), WithEmptyStaging(s, dest);
    assert Ranked(t, rank);
    UnrelatedByDirs(z, base, t, rank, {StageDir(dest)});
    forall x ensures Chain(t, rank, x) == Chain(base, rank, x) {
      SameParentsSameChain(base, t, rank, x);
    }
  }

  /** The destination stands for what the staging directory stood for. */
  lemma {:induction false} MoveKeepsContents(z: Zstd, t: Store, rank: Path -> nat, dest: Path)
    requires Ranked(t, rank) && StageDir(dest) in t
    requires var link := Link(t[StageDir(dest)]);
             link.Some? ==> rank(link.value) < rank(dest) && Unrelated(t, rank, {dest, StageDir(dest)}, link.value)
    ensures Ranked(Moved(t, dest), rank)
    ensures UnrelatedKept(z, t, Moved(t, dest), rank, {dest, StageDir(dest)})
    ensures Logical(z, Moved(t, dest), rank, dest) == Logical(z, t, rank, StageDir(dest))
  {
    var u, img := Moved(t, dest), t[StageDir(dest)];
    assert Link(u[dest]) == Link(img);
    assert Ranked(u, rank);
    UnrelatedByDirs(z, t, u, rank, {dest, StageDir(dest)});
    if Link(img).Some? {
      assert KeptFor(z, t, u, rank, Link(img).value);
    }
  }

  /** What a successful checkpoint publishes. */
  ghost predicate Published(z: Zstd, crc: Checksum, a: Attempt, before: Store, after: Store, rank: Path -> nat,
                            dest: Path, parent: Path)
    requires Ranked(before, rank) && Ranked(after, rank)
  {
    && dest in after && after[dest].complete && BuiltFrom(crc, a, after[dest])
    && StandsForMemory(z, crc, a, before, after, rank, parent, dest)
  }

  /** A success would make the destination a child of its own descendant. */
  ghost predicate Loops(crc: Checksum, a: Attempt, s: Store, rank: Path -> nat, dest: Path, parent: Path)
    requires Ranked(s, rank)
  {
    Carries(crc, a, s, parent) && dest in Chain(s, rank, parent)
  }

  /** The directories that change otherwise than by materialisation. */
  function Replaced(dest: Path, ok: bool): set<Path>
  {
    if ok then {dest, StageDir(dest)} else {StageDir(dest)}
  }

  /** What an attempt has achieved if the parent is in harmony and does not descend from the staging
      directory: it succeeds exactly when process, shim and CRIU cooperate and the parent stands for
      something; then, unless that makes a cycle, the image is published; and unrelated images keep their
      contents either way. */
  ghost predicate Attempted(z: Zstd, crc: Checksum, a: Attempt, before: Store, after: Store, rank: Path -> nat,
                            dest: Path, parent: Path, refused: bool, err: Option<CheckpointError>)
    requires Ranked(before, rank)
  {
    && (err.None? <==> Cooperates(a, refused) && ParentThere(z, before, rank, parent))
    && (err == Some(DumpFailed) <==> OnlyDumpFails(a, refused) && ParentThere(z, before, rank, parent))
    && (err.None? ==> dest in after && (Link(after[dest]).Some? <==> Carries(crc, a, before, parent)))
    && (if err.None? && Loops(crc, a, before, rank, dest, parent) then !Acyclic(after) else
          && Ranked(after, rank) && UnrelatedKept(z, before, after, rank, Replaced(dest, err.None?))
          && (err.None? ==> Published(z, crc, a, before, after, rank, dest, parent))
          && (err == Some(DumpFailed) && parent != "" ==> Settled(z, after, rank, parent)))
  }

  /** What a success has installed, whatever the parent: the image marked COMPLETE, with the files and flags of
      the transformations asked for and the record of the process.  The parent relation has a cycle exactly if
      the image is a delta of its own descendant; and a delta against what descends from the staging directory
      stands for nothing. */
  ghost predicate Completed(z: Zstd, sha: Bytes -> Bytes, crc: Checksum, a: Attempt, opts: ProcessOpts, before: Store,
                            after: Store, rank: Path -> nat, dest: Path)
    requires Ranked(before, rank)
  {
    && dest in after && after[dest].complete && RecordsOf(a, after[dest])
    && StagedAs(z, sha, crc, a, opts, after[dest])
    && if Link(after[dest]).Some? && dest in Chain(before, rank, opts.parent) then !Acyclic(after)
       else
         && Ranked(after, rank)
         && (Link(after[dest]).Some? && !Apart(before, rank, dest, opts.parent) ==>
               Logical(z, after, rank, dest).None?)
  }

  lemma {:induction false} MovedIsCompleted(z: Zstd, sha: Bytes -> Bytes, crc: Checksum, a: Attempt, opts: ProcessOpts,
                                            base: Store, s: Store, built: Store, rank: Path -> nat, dest: Path)
    requires GoodRank(base, rank, dest, opts.parent) && Ranked(s, rank) && StageDir(dest) !in base
    requires StoreRefreshed(base, Cleared(built, dest)) && BuiltLink(crc, a, s, built, rank, dest, opts.parent)
    requires RecordsOf(a, built[StageDir(dest)]) && StagedAs(z, sha, crc, a, opts, built[StageDir(dest)])
    ensures Completed(z, sha, crc, a, opts, base, Moved(built, dest), rank, dest)
  {
    MoveKeepsStaged(z, sha, crc, a, opts, built, dest);
    MovedLinks(z, crc, a, base, s, built, rank, dest, opts.parent);
  }

  /** A success is an uninterrupted run of the publication steps; a failure leaves the destination as it was,
      materialised at most, and that only if it is an ancestor of the parent.  Neither leaves a staging
      directory.  The parent relation stays acyclic if and only if no delta against a descendant of the
      destination is published. */
  method DoCheckpoint(fs: FileSystem, crc: Checksum, dest: Path, a: Attempt, opts: ProcessOpts, ghost rank: Path -> nat)
    returns (err: Option<CheckpointError>, ghost refused: bool, ghost built: Store)
    requires Sane(a) && Lossless(fs.zstd) && GoodRank(Cleared(fs.dirs, dest), rank, dest, opts.parent)
    modifies fs`dirs
    ensures StageDir(dest) !in fs.dirs
    ensures a.env.willing ==> !refused
    ensures ErrorNames(a, refused, err)
    ensures BuilderMayDo(dest, WithEmptyStaging(old(fs.dirs), dest), built)
    ensures Mended(fs.zstd, Cleared(old(fs.dirs), dest), Cleared(built, dest), rank, opts.parent)
    ensures err.Some? ==> fs.dirs == Cleared(built, dest) && Ranked(fs.dirs, rank)
    ensures err.None? ==>
      && Cooperates(a, refused) && StageDir(dest) in built && fs.dirs == Moved(built, dest)
      && fs.dirs == Exec(dest, Start(old(fs.dirs)), [Begin, Make, Work(built), Finish, Mark, Drop, Move]).dirs
    ensures err.None? ==> Completed(fs.zstd, fs.sha, crc, a, opts, Cleared(old(fs.dirs), dest), fs.dirs, rank, dest)
    ensures Trusted(fs.zstd, Cleared(old(fs.dirs), dest), rank, dest, opts.parent) ==>
              Attempted(fs.zstd, crc, a, Cleared(old(fs.dirs), dest), fs.dirs, rank, dest, opts.parent, refused, err)
  {
    var staging := StageDir(dest);
    ghost var old0 := fs.dirs;
    ghost var base := Cleared(old0, dest);
    ghost var s := WithEmptyStaging(old0, dest);
    err, refused := BuildAnew(fs, crc, dest, a, opts, rank);
    built := fs.dirs;
    StartOfAttempt(fs.zstd, old0, rank, dest, opts);
    RefreshedStaysRanked(base, Cleared(built, dest), rank);
    if err.Some? {
      fs.dirs := fs.dirs - {staging};
      if Trusted(fs.zstd, base, rank, dest, opts.parent) {
        FailedAttempt(fs.zstd, crc, a, base, s, built, rank, dest, opts.parent, refused, err);
      }
      return;
    }
    Finalize(fs, dest);
    UninterruptedRun(dest, old0, built);
    MovedIsCompleted(fs.zstd, fs.sha, crc, a, opts, base, s, built, rank, dest);
    if Trusted(fs.zstd, base, rank, dest, opts.parent) {
      PublishedByMove(fs.zstd, crc, a, base, s, built, rank, dest, opts.parent, refused);
    }
  }

  /** The old staging directory goes, and the builder starts in a new one. */
  method BuildAnew(fs: FileSystem, crc: Checksum, dest: Path, a: Attempt, opts: ProcessOpts, ghost rank: Path -> nat)
    returns (err: Option<CheckpointError>, ghost refused: bool)
    requires Sane(a) && Lossless(fs.zstd) && GoodRank(Cleared(fs.dirs, dest), rank, dest, opts.parent)
    modifies fs`dirs
    ensures BuilderMayDo(dest, WithEmptyStaging(old(fs.dirs), dest), fs.dirs)
    ensures Mended(fs.zstd, Cleared(old(fs.dirs), dest), Cleared(fs.dirs, dest), rank, opts.parent)
    ensures a.env.willing ==> !refused
    ensures ErrorNames(a, refused, err)
    ensures Ranked(WithEmptyStaging(old(fs.dirs), dest), rank)
    ensures err.None? ==>
      && Cooperates(a, refused)
      && BuiltLink(crc, a, WithEmptyStaging(old(fs.dirs), dest), fs.dirs, rank, dest, opts.parent)
      && RecordsOf(a, fs.dirs[StageDir(dest)]) && StagedAs(fs.zstd, fs.sha, crc, a, opts, fs.dirs[StageDir(dest)])
    ensures Trusted(fs.zstd, Cleared(old(fs.dirs), dest), rank, dest, opts.parent) ==>
              BuildOutcome(fs.zstd, crc, a, WithEmptyStaging(old(fs.dirs), dest), fs.dirs, rank, dest, opts.parent,
                           refused, err)
  {
    var staging := StageDir(dest);
    ghost var base, s := Cleared(fs.dirs, dest), WithEmptyStaging(fs.dirs, dest);
    StartOfAttempt(fs.zstd, fs.dirs, rank, dest, opts);
    fs.dirs := fs.dirs - {staging};
    fs.dirs := fs.dirs[staging := EmptyImage()];
    if Trusted(fs.zstd, base, rank, dest, opts.parent) {
      SameParent(fs.zstd, crc, a, base, s, rank, dest, opts.parent);
    }
    err, refused := BuildImage(fs, crc, dest, a, opts, rank);
  }

  lemma {:induction false} FailedAttempt(z: Zstd, crc: Checksum, a: Attempt, base: Store, s: Store, built: Store,
                                         rank: Path -> nat, dest: Path, parent: Path, refused: bool,
                                         err: Option<CheckpointError>)
    requires Ranked(base, rank) && Ranked(s, rank) && UnrelatedKept(z, base, s, rank, {StageDir(dest)})
    requires Apart(base, rank, dest, parent) && ParentInHarmony(z, base, rank, parent)
    requires err.Some? && BuildOutcome(z, crc, a, s, built, rank, dest, parent, refused, err)
    ensures Attempted(z, crc, a, base, Cleared(built, dest), rank, dest, parent, refused, err)
  {
    var d, after := StageDir(dest), Cleared(built, dest);
    assert Ranked(after, rank);
    SameParent(z, crc, a, base, s, rank, dest, parent);
    SameParent(z, crc, a, s, built, rank, dest, parent);
    UnrelatedByDirs(z, built, after, rank, {d});
    UnrelatedTransitive(z, base, s, built, rank, {d}, {d});
    UnrelatedTransitive(z, base, built, after, rank, {d}, {d});
    if parent != "" {
      SameAlongChain(z, built, rank, after, rank, parent);
    }
  }

  /** The links after the rename. */
  lemma {:induction false} MovedLinks(z: Zstd, crc: Checksum, a: Attempt, base: Store, s: Store, built: Store,
                                      rank: Path -> nat, dest: Path, parent: Path)
    requires GoodRank(base, rank, dest, parent) && Ranked(s, rank) && StageDir(dest) !in base
    requires StoreRefreshed(base, Cleared(built, dest)) && BuiltLink(crc, a, s, built, rank, dest, parent)
    ensures var after := Moved(built, dest);
            if Link(after[dest]).Some? && dest in Chain(base, rank, parent) then !Acyclic(after)
            else Ranked(after, rank)
                 && (Link(after[dest]).Some? && !Apart(base, rank, dest, parent) ==> Logical(z, after, rank, dest).None?)
  {
    var after := Moved(built, dest);
    RefreshedPlan(base, Cleared(built, dest));
    assert forall x | x in base && x != dest :: x in after && Link(after[x]) == Link(base[x]);
    if Link(after[dest]).Some? {
      if dest in Chain(base, rank, parent) {
        CycleHasNoRanking(base, rank, after, dest, parent);
      } else {
        assert Ranked(after, rank);
        if !Apart(base, rank, dest, parent) { LostBelow(z, base, after, rank, dest, parent); }
      }
    }
  }

  /** An image that descends from the staging directory, which is gone after the rename, stands for nothing. */
  lemma {:induction false} LostBelow(z: Zstd, base: Store, after: Store, rank: Path -> nat, dest: Path, x: Path)
    requires Ranked(base, rank) && Ranked(after, rank) && StageDir(dest) !in after
    requires forall y | y in base && y != dest :: y in after && Link(after[y]) == Link(base[y])
    requires dest !in Chain(base, rank, x) && StageDir(dest) in Chain(base, rank, x)
    ensures Logical(z, after, rank, x).None?
    decreases rank(x)
  {
    if x != StageDir(dest) {
      assert x in Chain(base, rank, x);
      LostBelow(z, base, after, rank, dest, Link(base[x]).value);
    }
  }

  lemma {:induction false} PublishedByMove(z: Zstd, crc: Checksum, a: Attempt, base: Store, s: Store, built: Store,
                                           rank: Path -> nat, dest: Path, parent: Path, refused: bool)
    requires GoodRank(base, rank, dest, parent) && Ranked(s, rank) && UnrelatedKept(z, base, s, rank, {StageDir(dest)})
    requires Apart(base, rank, dest, parent) && ParentInHarmony(z, base, rank, parent)
    requires BuildOutcome(z, crc, a, s, built, rank, dest, parent, refused, None)
    requires BuiltLink(crc, a, s, built, rank, dest, parent)
    requires RecordsOf(a, built[StageDir(dest)])
    requires Link(built[StageDir(dest)]).Some? && dest in Chain(base, rank, parent) ==> !Acyclic(Moved(built, dest))
    ensures Attempted(z, crc, a, base, Moved(built, dest), rank, dest, parent, refused, None)
  {
    var d, after, img := StageDir(dest), Moved(built, dest), built[StageDir(dest)];
    assert img == Dumped(a, img) && Link(after[dest]) == Link(img);
    SameParent(z, crc, a, base, s, rank, dest, parent);
    SameParent(z, crc, a, s, built, rank, dest, parent);
    if !Loops(crc, a, base, rank, dest, parent) {
      MoveKeepsContents(z, built, rank, dest);
      UnrelatedTransitive(z, base, s, built, rank, {d}, {d});
      UnrelatedTransitive(z, base, built, after, rank, {d}, {dest, d});
    }
  }

  /** After a failing dump the destination, if it is an ancestor of the parent, has been rewritten exactly if
      its device.bin was not up to date or its compressed flag was set. */
  lemma {:induction false} DestinationAfterDump(z: Zstd, crc: Checksum, a: Attempt, before: Store, after: Store,
                                                rank: Path -> nat, dest: Path, parent: Path, refused: bool)
    requires Ranked(before, rank) && ParentInHarmony(z, before, rank, parent) && Apart(before, rank, dest, parent)
    requires Attempted(z, crc, a, before, after, rank, dest, parent, refused, Some(DumpFailed))
    requires Mended(z, before, after, rank, parent) && parent != "" && dest in Chain(before, rank, parent)
    ensures dest in before && before[dest].manifest.Some?
    ensures Lookup(after, dest) != Lookup(before, dest) <==>
            before[dest].manifest.value.flags.compressed || before[dest].device != Logical(z, before, rank, dest)
  {
    assert Unrelated(before, rank, {StageDir(dest)}, parent);
    assert KeptFor(z, before, after, rank, parent);
    SettledAncestors(z, after, rank, parent, dest);
    assert Refreshed(before[dest], after[dest]);
    ChainWithin(before, rank, parent, dest);
    assert Unrelated(before, rank, {StageDir(dest)}, dest);
    assert KeptFor(z, before, after, rank, dest);
    RewrittenIff(z, before, after, rank, dest);
  }

  lemma {:induction false} ChainWithin(s: Store, rank: Path -> nat, d: Path, x: Path)
    requires Ranked(s, rank) && x in Chain(s, rank, d)
    ensures Chain(s, rank, x) <= Chain(s, rank, d)
    decreases rank(d)
  {
    if x != d { ChainWithin(s, rank, Link(s[d]).value, x); }
  }

  // ---------- images that descend from the destination ----------

  /** A delta of the replaced destination is itself untouched, and stands for what it did if and only if the
      old contents of the destination and the published ones agree, once resized, wherever the delta does
      not write. */
  lemma {:induction false} ChildOfDestination(z: Zstd, crc: Checksum, a: Attempt, before: Store, built: Store,
                                              rank: Path -> nat, dest: Path, parent: Path, x: Path)
    requires Ranked(before, rank) && StageDir(dest) !in before && StageDir(dest) in built
    requires Mended(z, before, Cleared(built, dest), rank, parent)
    requires parent != "" ==> dest !in Chain(before, rank, parent)
    requires Ranked(Moved(built, dest), rank) && Published(z, crc, a, before, Moved(built, dest), rank, dest, parent)
    requires x in before && x != dest && Link(before[x]) == Some(dest) && !before[x].manifest.value.flags.compressed
    requires Logical(z, before, rank, x).Some?
    ensures var after, total := Moved(built, dest), MaxEnd(before[x].manifest.value.entries);
            && x in after && after[x] == before[x] && Logical(z, before, rank, dest).Some?
            && (Logical(z, after, rank, x) == Logical(z, before, rank, x) <==>
                  forall p | 0 <= p < total && !Covered(before[x].delta.value.recs, p) ::
                    Resize(Logical(z, after, rank, dest).value, total)[p] ==
                    Resize(Logical(z, before, rank, dest).value, total)[p])
  {
    var after := Moved(built, dest);
    assert dest in Chain(before, rank, dest) && dest in Chain(before, rank, x);
    if parent != "" && x in Chain(before, rank, parent) {
      ChainWithin(before, rank, parent, x);
    }
    assert Cleared(built, dest)[x] == before[x];
    ChildOfReplaced(z, before, after, rank, x);
  }

  // ---------- a parent that descends from the destination ----------

  /** Two slots used in turn: a is compressed, b is a delta of a. */
  function TwoSlots(z: Zstd): Store
  {
    var a := Image(Some(Manifest(2, Flags(true, false, false, false, 0), [Entry(16, 1, 0, 6, 1, [])])), None,
                   Some(z.enc([1])), None, None, None, None, map[], None, None, false, true);
    var b := Image(Some(Manifest(2, Flags(false, false, false, true, 0), [Entry(16, 1, 0, 7, 1, [])])), None, None,
                   Some(DeltaFile("a", [Record(16, 1, 0, 0)])), Some([2]), None, None, map[], None, None, false, true);
    map["a" := a, "b" := b]
  }

  function SlotRanks(): Path -> nat
  {
    (d: Path) => if d == "a" then 0 else if d == "b" then 1 else 2
  }

  lemma {:induction false} TwoSlotsContents(z: Zstd)
    requires Lossless(z)
    ensures var s, rank := TwoSlots(z), SlotRanks();
            && Ranked(s, rank) && StageDir("a") !in s && GoodRank(s, rank, "a", "b") && Apart(s, rank, "a", "b")
            && "a" in Chain(s, rank, "b") && ParentInHarmony(z, s, rank, "b") && ParentThere(z, s, rank, "b")
            && Logical(z, s, rank, "a") == Some([1]) && StageDir("a") == "a.staging"
  {
    var s, rank := TwoSlots(z), SlotRanks();
    assert "a" != "b" by { assert "a"[0] != "b"[0]; }
    assert |StageDir("a")| == 9;
    assert Link(s["a"]).None? && Link(s["b"]) == Some("a");
    assert Ranked(s, rank);
    assert Chain(s, rank, "a") == {"a"} && Chain(s, rank, "b") == {"b", "a"};
    TwoFacedRebuilds();
  }

  /** A checkpoint into slot a against b, with a cooperating process: if CRIU fails, the old image in a is not
      as it was, although nothing was published; otherwise a and b become deltas of each other. */
  method CheckpointIntoOtherSlot(z: Zstd, sha: Bytes -> Bytes, crc: Checksum, a: Attempt, opts: ProcessOpts)
    returns (fs: FileSystem, err: Option<CheckpointError>)
    requires Lossless(z) && Sane(a) && opts.parent == "b" && Carries(crc, a, TwoSlots(z), "b")
    requires a.frozen && AllWell(a.env) && a.env.willing && NoEmptyBlock(a.allocs)
    ensures a.dumped ==> err.None? && !Acyclic(fs.dirs)
    ensures !a.dumped ==> err == Some(DumpFailed) && Lookup(fs.dirs, "a") != Lookup(TwoSlots(z), "a")
  {
    TwoSlotsContents(z);
    fs := new FileSystem(TwoSlots(z), z, sha);
    ghost var s, rank := TwoSlots(z), SlotRanks();
    assert Cleared(fs.dirs, "a") == s;
    ghost var refused, built;
    err, refused, built := DoCheckpoint(fs, crc, "a", a, opts, rank);
    if err == Some(DumpFailed) {
      DestinationAfterDump(z, crc, a, s, fs.dirs, rank, "a", "b", refused);
    }
  }

  // ---------- retries ----------

  /** internal/ckpterr */
  datatype Code = NotFound | IO | RPC | CUDA | CRIU | Unsupported | Invalid

  function CodeOf(e: CheckpointError): Code
  {
    match e
    case FreezeFailed => RPC
    case SnapshotFailed(_) => CUDA
    case VerifyFailed => Invalid
    case ProcessFailed => IO
    case DumpFailed => CRIU
  }

  /** The errors after which no further attempt is made. */
  predicate StopRetry(e: CheckpointError)
  {
    CodeOf(e) == Unsupported
  }

  /** No error of doCheckpoint is one of them, not even for a process that the shim reports as unsupported. */
  lemma {:induction false} RetriesNeverStopEarly(e: CheckpointError)
    ensures !StopRetry(e)
  {
    match e
    case FreezeFailed =>
    case SnapshotFailed(_) =>
    case VerifyFailed =>
    case ProcessFailed =>
    case DumpFailed =>
  }

  /** The number of attempts: what the caller says, else what is configured, else one. */
  function Limit(maxAttempts: int, configured: int): nat
  {
    if maxAttempts > 0 then maxAttempts else if configured > 0 then configured else 1
  }

  /** An attempt that cannot fail. */
  ghost predicate Certain(z: Zstd, a: Attempt, s: Store, rank: Path -> nat, parent: Path)
    requires Ranked(s, rank)
  {
    Cooperates(a, false) && a.env.willing && ParentThere(z, s, rank, parent)
  }

  /** What the last attempt has achieved, s being the directories before the first. */
  ghost predicate Tried(z: Zstd, crc: Checksum, a: Attempt, s: Store, after: Store, rank: Path -> nat, dest: Path,
                        parent: Path, err: Option<CheckpointError>)
    requires Ranked(s, rank)
  {
    if err.None? && Loops(crc, a, s, rank, dest, parent) then !Acyclic(after) else
      && Ranked(after, rank) && UnrelatedKept(z, s, after, rank, Replaced(dest, err.None?))
      && (err.None? ==> Published(z, crc, a, s, after, rank, dest, parent))
  }

  /** Failed attempts have done no more than materialise ancestors of the parent. */
  ghost predicate Waiting(z: Zstd, s: Store, t: Store, rank: Path -> nat, dest: Path, parent: Path)
    requires Ranked(s, rank)
  {
    && Ranked(t, rank) && Mended(z, s, t, rank, parent)
    && (Trusted(z, s, rank, dest, parent) ==> UnrelatedKept(z, s, t, rank, {StageDir(dest)}))
  }

  lemma {:induction false} NothingTried(z: Zstd, s: Store, rank: Path -> nat, dest: Path, parent: Path)
    requires Ranked(s, rank)
    ensures Waiting(z, s, s, rank, dest, parent)
  {
    UnrelatedByDirs(z, s, s, rank, {StageDir(dest)});
  }

  /** An attempt after failed ones, seen from the directories s before the first. */
  method NextAttempt(fs: FileSystem, crc: Checksum, dest: Path, a: Attempt, opts: ProcessOpts, ghost rank: Path -> nat,
                     ghost s: Store)
    returns (err: Option<CheckpointError>)
    requires Sane(a) && Lossless(fs.zstd) && GoodRank(s, rank, dest, opts.parent)
    requires Waiting(fs.zstd, s, Cleared(fs.dirs, dest), rank, dest, opts.parent)
    modifies fs`dirs
    ensures StageDir(dest) !in fs.dirs
    ensures err.Some? ==> Waiting(fs.zstd, s, fs.dirs, rank, dest, opts.parent)
    ensures Trusted(fs.zstd, s, rank, dest, opts.parent) ==>
              && Tried(fs.zstd, crc, a, s, fs.dirs, rank, dest, opts.parent, err)
              && (Certain(fs.zstd, a, s, rank, opts.parent) ==> err.None?)
  {
    ghost var t := Cleared(fs.dirs, dest);
    ghost var refused, built;
    WaitingIsGood(fs.zstd, crc, a, s, t, rank, dest, opts.parent);
    err, refused, built := DoCheckpoint(fs, crc, dest, a, opts, rank);
    if err.Some? { MendedTwice(fs.zstd, s, t, fs.dirs, rank, opts.parent); }
    if Trusted(fs.zstd, s, rank, dest, opts.parent) && !(err.None? && Loops(crc, a, t, rank, dest, opts.parent)) {
      TriedAfterWaiting(fs.zstd, crc, a, s, t, fs.dirs, rank, dest, opts.parent, refused, err);
    }
  }

  /** The next attempt finds what the first one found. */
  lemma {:induction false} WaitingIsGood(z: Zstd, crc: Checksum, a: Attempt, s: Store, t: Store, rank: Path -> nat,
                                         dest: Path, parent: Path)
    requires GoodRank(s, rank, dest, parent) && Waiting(z, s, t, rank, dest, parent)
    ensures GoodRank(t, rank, dest, parent) && Chain(t, rank, parent) == Chain(s, rank, parent)
    ensures Trusted(z, s, rank, dest, parent) ==>
              && Trusted(z, t, rank, dest, parent)
              && ParentThere(z, s, rank, parent) == ParentThere(z, t, rank, parent)
              && Loops(crc, a, s, rank, dest, parent) == Loops(crc, a, t, rank, dest, parent)
  {
    SameChain(s, t, rank, parent);
    if Trusted(z, s, rank, dest, parent) {
      SameParent(z, crc, a, s, t, rank, dest, parent);
    }
  }

  lemma {:induction false} TriedAfterWaiting(z: Zstd, crc: Checksum, a: Attempt, s: Store, t: Store, u: Store,
                                             rank: Path -> nat, dest: Path, parent: Path, refused: bool,
                                             err: Option<CheckpointError>)
    requires Ranked(s, rank) && Ranked(t, rank) && Trusted(z, s, rank, dest, parent)
    requires UnrelatedKept(z, s, t, rank, {StageDir(dest)})
    requires Attempted(z, crc, a, t, u, rank, dest, parent, refused, err)
    requires !(err.None? && Loops(crc, a, t, rank, dest, parent))
    ensures Ranked(u, rank) && UnrelatedKept(z, s, u, rank, Replaced(dest, err.None?))
    ensures err.None? ==> Published(z, crc, a, s, u, rank, dest, parent)
  {
    SameParent(z, crc, a, s, t, rank, dest, parent);
    UnrelatedTransitive(z, s, t, u, rank, {StageDir(dest)}, Replaced(dest, err.None?));
  }

  /** None of these attempts was bound to succeed. */
  ghost predicate NoneCertain(z: Zstd, attempts: seq<Attempt>, s: Store, rank: Path -> nat, parent: Path)
    requires Ranked(s, rank)
  {
    forall i | 0 <= i < |attempts| :: !Certain(z, attempts[i], s, rank, parent)
  }

  /** Before attempt n, all earlier ones having failed; t are the directories without a staging directory. */
  ghost predicate Pausing(z: Zstd, attempts: seq<Attempt>, s: Store, t: Store, rank: Path -> nat, dest: Path,
                          parent: Path, n: nat)
    requires Ranked(s, rank) && n <= |attempts|
  {
    && Waiting(z, s, t, rank, dest, parent)
    && (Trusted(z, s, rank, dest, parent) ==> NoneCertain(z, attempts[..n], s, rank, parent))
  }

  /** After attempt n - 1, which is the first success or one more failure. */
  ghost predicate Retried(z: Zstd, crc: Checksum, attempts: seq<Attempt>, s: Store, t: Store, rank: Path -> nat,
                          dest: Path, parent: Path, n: nat, err: Option<CheckpointError>)
    requires Ranked(s, rank) && 0 < n <= |attempts|
  {
    && (err.Some? ==> Waiting(z, s, t, rank, dest, parent))
    && (Trusted(z, s, rank, dest, parent) ==>
          && Tried(z, crc, attempts[n - 1], s, t, rank, dest, parent, err)
          && NoneCertain(z, attempts[..if err.None? then n - 1 else n], s, rank, parent))
  }

  /** Attempt n of a list. */
  method AttemptOf(fs: FileSystem, crc: Checksum, dest: Path, attempts: seq<Attempt>, n: nat, opts: ProcessOpts,
                   ghost rank: Path -> nat, ghost s: Store)
    returns (err: Option<CheckpointError>)
    requires n < |attempts| && Sane(attempts[n]) && Lossless(fs.zstd) && GoodRank(s, rank, dest, opts.parent)
    requires Pausing(fs.zstd, attempts, s, Cleared(fs.dirs, dest), rank, dest, opts.parent, n)
    modifies fs`dirs
    ensures StageDir(dest) !in fs.dirs
    ensures Retried(fs.zstd, crc, attempts, s, fs.dirs, rank, dest, opts.parent, n + 1, err)
    ensures err.Some? ==> Pausing(fs.zstd, attempts, s, Cleared(fs.dirs, dest), rank, dest, opts.parent, n + 1)
  {
    err := NextAttempt(fs, crc, dest, attempts[n], opts, rank, s);
    assert attempts[..n + 1] == attempts[..n] + [attempts[n]];
    assert Cleared(fs.dirs, dest) == fs.dirs;
  }

  /** CheckpointWithRetry and applyRetry around doCheckpoint: attempt after attempt until one succeeds, and all
      that are allowed if none does.  An attempt that cannot fail is the last one at the latest. */
  method CheckpointWithRetry(fs: FileSystem, crc: Checksum, dest: Path, attempts: seq<Attempt>, maxAttempts: int,
                             configured: int, opts: ProcessOpts, ghost rank: Path -> nat)
    returns (err: Option<CheckpointError>, made: nat)
    requires |attempts| >= Limit(maxAttempts, configured) && forall i | 0 <= i < |attempts| :: Sane(attempts[i])
    requires Lossless(fs.zstd) && GoodRank(Cleared(fs.dirs, dest), rank, dest, opts.parent)
    modifies fs`dirs
    ensures StageDir(dest) !in fs.dirs
    ensures 1 <= made <= Limit(maxAttempts, configured) && (err.Some? ==> made == Limit(maxAttempts, configured))
    ensures maxAttempts > 0 ==> made <= maxAttempts && (err.Some? ==> made == maxAttempts)
    ensures maxAttempts <= 0 < configured ==> made <= configured && (err.Some? ==> made == configured)
    ensures maxAttempts <= 0 && configured <= 0 ==> made == 1
    ensures Retried(fs.zstd, crc, attempts, Cleared(old(fs.dirs), dest), fs.dirs, rank, dest, opts.parent, made, err)
  {
    var limit := Limit(maxAttempts, configured);
    ghost var s := Cleared(fs.dirs, dest);
    NothingTried(fs.zstd, s, rank, dest, opts.parent);
    made := 0;
    err := None;
    while made < limit
      invariant 0 <= made < limit && (made > 0 ==> err.Some?)
      invariant Pausing(fs.zstd, attempts, s, Cleared(fs.dirs, dest), rank, dest, opts.parent, made)
    {
      err := AttemptOf(fs, crc, dest, attempts, made, opts, rank, s);
      made := made + 1;
      if err.None? { return; }
      RetriesNeverStopEarly(err.value);
      if made == limit || StopRetry(err.value) { return; }
    }
  }

  // ---------- what a restore asks for ----------

  datatype Refusal =
    | NotFinalized | MissingManifest | MissingMeta | MissingCriu | NoPreload | EmptyManifest | MissingZst | MissingDevice

  function PreflightRestore(dir: Option<Image>): Option<Refusal>
  {
    if dir.None? || !dir.value.complete then Some(NotFinalized) else
    var img := dir.value;
    if img.manifest.None? then Some(MissingManifest)
    else if img.meta.None? then Some(MissingMeta)
    else if !img.criu then Some(MissingCriu)
    else if img.meta.value.preload == [] then Some(NoPreload)
    else if img.manifest.value.entries == [] then Some(EmptyManifest)
    else if img.manifest.value.flags.compressed then (if img.zst.None? then Some(MissingZst) else None)
    else if img.device.None? && !img.manifest.value.flags.delta then Some(MissingDevice)
    else None
  }

  /** A directory passes if and only if it is marked COMPLETE, has the manifest, the record and CRIU's files, the
      record names a preload library, the manifest has an entry, and the form of the device contents that the
      flags announce is there. */
  lemma {:induction false} PreflightIff(dir: Option<Image>)
    ensures PreflightRestore(dir).None? <==>
            && dir.Some? && dir.value.complete && dir.value.criu
            && dir.value.meta.Some? && dir.value.meta.value.preload != []
            && dir.value.manifest.Some? && dir.value.manifest.value.entries != []
            && var flags := dir.value.manifest.value.flags;
               (flags.compressed ==> dir.value.zst.Some?)
               && (!flags.compressed && !flags.delta ==> dir.value.device.Some?)
    ensures dir.None? || !dir.value.complete ==> PreflightRestore(dir) == Some(NotFinalized)
  {
  }

  /** A published image passes if and only if the process had a preload library and an allocation. */
  lemma {:induction false} PublishedPassesPreflight(z: Zstd, crc: Checksum, a: Attempt, before: Store, after: Store,
                                                    rank: Path -> nat, dest: Path, parent: Path)
    requires Ranked(before, rank) && Ranked(after, rank) && Published(z, crc, a, before, after, rank, dest, parent)
    ensures PreflightRestore(Lookup(after, dest)).None? <==> a.preload != [] && a.allocs != []
  {
  }

  // ---------- the whole way ----------

  /** A checkpoint, the preflight checks and the materialisation before a restore.  After a checkpoint that
      makes a cycle the materialisation would not end. */
  method CheckpointThenMaterialize(fs: FileSystem, crc: Checksum, dest: Path, a: Attempt, opts: ProcessOpts,
                                   ghost rank: Path -> nat)
    returns (ok: bool, img: Image, ghost refused: bool)
    requires Sane(a) && Lossless(fs.zstd) && GoodRank(Cleared(fs.dirs, dest), rank, dest, opts.parent)
    requires Trusted(fs.zstd, Cleared(fs.dirs, dest), rank, dest, opts.parent)
    requires !Loops(crc, a, Cleared(fs.dirs, dest), rank, dest, opts.parent)
    modifies fs`dirs
    ensures a.env.willing ==> !refused
    ensures ok <==> Cooperates(a, refused) && ParentThere(fs.zstd, Cleared(old(fs.dirs), dest), rank, opts.parent)
                    && a.preload != [] && a.allocs != []
    ensures ok ==> img.device.Some? && img.manifest.Some?
                   && SameChunks(NaiveManifest(crc, a.gpu, a.allocs, 0), img.manifest.value.entries)
                   && |img.device.value| == |NaiveDevice(a.gpu, a.allocs)|
                   && (img.device == Some(NaiveDevice(a.gpu, a.allocs)) <==>
                         ParentFits(fs.zstd, crc, a, Cleared(old(fs.dirs), dest), rank, opts.parent))
  {
    ok, img := false, EmptyImage();
    ghost var s := Cleared(fs.dirs, dest);
    var err;
    ghost var built;
    err, refused, built := DoCheckpoint(fs, crc, dest, a, opts, rank);
    if err.Some? { return; }
    ok, img := MaterializePublished(fs, crc, dest, a, opts.parent, rank, s);
  }

  /** The preflight checks and the materialisation of a published image, s being the directories before its
      checkpoint. */
  method MaterializePublished(fs: FileSystem, ghost crc: Checksum, dest: Path, ghost a: Attempt, ghost parent: Path,
                              ghost rank: Path -> nat, ghost s: Store)
    returns (ok: bool, img: Image)
    requires Ranked(s, rank) && Ranked(fs.dirs, rank) && Published(fs.zstd, crc, a, s, fs.dirs, rank, dest, parent)
    modifies fs`dirs
    ensures ok <==> a.preload != [] && a.allocs != []
    ensures ok ==> img.device.Some? && img.manifest.Some?
                   && SameChunks(NaiveManifest(crc, a.gpu, a.allocs, 0), img.manifest.value.entries)
                   && |img.device.value| == |NaiveDevice(a.gpu, a.allocs)|
                   && (img.device == Some(NaiveDevice(a.gpu, a.allocs)) <==>
                         ParentFits(fs.zstd, crc, a, s, rank, parent))
  {
    ok, img := false, EmptyImage();
    ghost var t := fs.dirs;
    PublishedPassesPreflight(fs.zstd, crc, a, s, t, rank, dest, parent);
    if PreflightRestore(Lookup(fs.dirs, dest)).Some? { return; }
    ok := fs.EnsureDeviceMaterialized(dest, rank);
    assert Refreshed(t[dest], fs.dirs[dest]);
    img := fs.dirs[dest];
  }

  /** From live memory through snapshot, processing, publication, preflight and materialisation to the
      restored memory.  If every stage reports success and the parent fits, every byte of every allocation
      is back at its address, in the original order of allocation, for every combination of options and
      every interleaving of the copy workers.  And every stage does report success, with drivers that
      refuse nothing, if and only if the calls around succeed, the parent stands for something, the process
      has a preload library, there is an allocation and none is empty, and the addresses can be had. */
  method CheckpointThenRestore(fs: FileSystem, crc: Checksum, dest: Path, a: Attempt, opts: ProcessOpts,
                               ghost rank: Path -> nat, pool: seq<PP.Buf>, host: Mem, garbage: Mem,
                               answers: seq<Answer>, hardware: nat, env: RestoreEnvironment)
    returns (ok: bool, mem: Mem, order: seq<(nat, nat)>)
    requires Sane(a) && Lossless(fs.zstd) && GoodRank(Cleared(fs.dirs, dest), rank, dest, opts.parent)
    requires Trusted(fs.zstd, Cleared(fs.dirs, dest), rank, dest, opts.parent)
    requires !Loops(crc, a, Cleared(fs.dirs, dest), rank, dest, opts.parent)
    requires PP.Valid(pool) && |answers| >= |a.allocs|
    modifies fs`dirs
    ensures ok && ParentFits(fs.zstd, crc, a, Cleared(old(fs.dirs), dest), rank, opts.parent) ==>
              Preserved(a.gpu, mem, a.allocs) && order == Places(a.allocs)
    ensures ok ==> NoEmptyAlloc(a.allocs)
    ensures a.env.willing && env.willing ==>
      (ok <==>
         && a.frozen && AllWell(a.env) && a.dumped
         && ParentThere(fs.zstd, Cleared(old(fs.dirs), dest), rank, opts.parent)
         && a.preload != [] && a.allocs != [] && NoEmptyAlloc(a.allocs)
         && env.early == 0 && env.synced && AddressesCome(a.allocs, answers))
  {
    mem, order := garbage, [];
    var img;
    ghost var refused;
    if forall i | 0 <= i < |a.allocs| :: a.allocs[i].size > 0 { NonemptyAllocsMakeNonemptyBlocks(a.allocs); }
    ok, img, refused := CheckpointThenMaterialize(fs, crc, dest, a, opts, rank);
    if !ok { return; }
    var rc, after;
    rc, mem, order, after := RestoreImage(crc, a.allocs, a.gpu, img.device.value, img.manifest.value.entries, pool, host,
                                          garbage, answers, hardware, env);
    ok := rc == 0;
  }
}
