/** ckpt_snapshot_write of shim/snapshot.cu: block layout, parallel copy to the host, device.bin and
    manifest. */
module Snapshot {
  import opened Bytes
  import opened Memory
  import opened Format
  import opened Coalesce
  import opened CopyOutcome
  import opened CopyWorkers
  import PP = PinnedPool

  /** What the calls into the driver and the file system answer; a willing driver refuses no host memory
      and no copy. */
  datatype Environment = Environment(unsupported: Option<nat>, quiesced: bool, opens: bool, later: int, willing: bool)

  /** Every call around the workers succeeds. */
  predicate AllWell(env: Environment)
  {
    env.unsupported.None? && env.quiesced && env.opens && env.later == 0
  }

  function WorkerCount(hardware: nat, tasks: nat): (w: nat)
    ensures 0 < w <= 8 && (w <= tasks || w == 1) && (hardware > 0 ==> w <= hardware)
    ensures w == 8 || w == tasks || w == (if hardware == 0 then 4 else hardware) || tasks == 0
  {
    var w := if hardware == 0 then 4 else if hardware < 8 then hardware else 8;
    var capped := if w > tasks then tasks else w;
    if capped == 0 then 1 else capped
  }

  function BlockTotal(blocks: seq<Block>): nat
  {
    if blocks == [] then 0 else BlockTotal(blocks[..|blocks| - 1]) + blocks[|blocks| - 1].size
  }

  method Layout(blocks: seq<Block>) returns (offsets: seq<nat>)
    ensures |offsets| == |blocks|
    ensures forall i | 0 <= i < |blocks| :: offsets[i] == BlockTotal(blocks[..i])
  {
    offsets := [];
    var off := 0;
    for i := 0 to |blocks|
      invariant |offsets| == i && off == BlockTotal(blocks[..i])
      invariant forall h | 0 <= h < i :: offsets[h] == BlockTotal(blocks[..h])
    {
      offsets := offsets + [off];
      off := off + blocks[i].size;
      assert blocks[..i + 1][..i] == blocks[..i];
    }
  }

  /** Each task's host buffer holds its block of device memory. */
  ghost predicate Fetched(gpu: Mem, blocks: seq<Block>, tasks: seq<Task>, host: Mem)
  {
    && |tasks| == |blocks|
    && forall i | 0 <= i < |blocks| ::
         && WellFormed(blocks[i]) && tasks[i].dst.Some?
         && Read(host, tasks[i].dst.value, blocks[i].size) == Read(gpu, blocks[i].base, blocks[i].size)
  }

  /** The entries of one block, part by part, from the copied bytes. */
  method WriteParts(crc: Checksum, parts: seq<AllocRec>, base: nat, data: Bytes, off: nat) returns (entries: seq<Entry>)
    requires PartsFit(parts, base, |data|)
    ensures entries == BlockEntries(crc, parts, base, data, off)
  {
    entries := [];
    for i := 0 to |parts|
      invariant entries == BlockEntries(crc, parts, base, data, off)[..i]
    {
      var rel := parts[i].base - base;
      var part := data[rel..rel + parts[i].size];
      entries := entries + [Entry(parts[i].base, parts[i].size, off + rel, crc(part), parts[i].order % U32, [])];
    }
  }

  /** The image so far is what writing the allocations of the first blocks one by one would give. */
  ghost predicate Written(crc: Checksum, gpu: Mem, blocks: seq<Block>, device: Bytes, manifest: seq<Entry>)
  {
    && device == NaiveDevice(gpu, Flatten(blocks))
    && manifest == NaiveManifest(crc, gpu, Flatten(blocks), 0)
    && |device| == BlockTotal(blocks)
  }

  lemma {:induction false} AppendParts(crc: Checksum, gpu: Mem, parts: seq<AllocRec>, more: seq<AllocRec>, data: Bytes)
    requires NaiveDevice(gpu, more) == data
    ensures NaiveDevice(gpu, parts + more) == NaiveDevice(gpu, parts) + data
    ensures NaiveManifest(crc, gpu, parts + more, 0)
            == NaiveManifest(crc, gpu, parts, 0) + NaiveManifest(crc, gpu, more, |NaiveDevice(gpu, parts)|)
  {
    NaiveDeviceAppend(gpu, parts, more);
    NaiveManifestAppend(crc, gpu, parts, more, 0);
  }

  lemma {:induction false} AppendBlock(crc: Checksum, gpu: Mem, parts: seq<AllocRec>, b: Block)
    requires WellFormed(b)
    ensures PartsFit(b.parts, b.base, b.size)
    ensures NaiveDevice(gpu, parts + b.parts) == NaiveDevice(gpu, parts) + Read(gpu, b.base, b.size)
    ensures NaiveManifest(crc, gpu, parts + b.parts, 0) == NaiveManifest(crc, gpu, parts, 0)
            + BlockEntries(crc, b.parts, b.base, Read(gpu, b.base, b.size), |NaiveDevice(gpu, parts)|)
  {
    BlockEntriesAreNaive(crc, gpu, b, |NaiveDevice(gpu, parts)|);
    AppendParts(crc, gpu, parts, b.parts, Read(gpu, b.base, b.size));
  }

  /** The buffers that tasks from i on still hold. */
  ghost predicate StillHeld(before: seq<PP.Buf>, bufs: seq<PP.Buf>, tasks: seq<Task>, i: nat)
    requires i <= |tasks|
  {
    && PP.Holding(before, bufs, Slots(tasks[i..]))
    && (forall h | i <= h < |tasks| ::
          tasks[h].dst.Some? && tasks[h].slot < |bufs| && bufs[tasks[h].slot].ptr == tasks[h].dst.value)
    && (forall g, h | i <= g < h < |tasks| :: tasks[g].slot != tasks[h].slot)
  }

  lemma {:induction false} ReleaseNext(before: seq<PP.Buf>, bufs: seq<PP.Buf>, tasks: seq<Task>, i: nat)
    requires i < |tasks| && StillHeld(before, bufs, tasks, i)
    ensures StillHeld(before, PP.Released(bufs, tasks[i].dst.value), tasks, i + 1)
  {
    var k := tasks[i].slot;
    assert tasks[i..][0] == tasks[i] && k in Slots(tasks[i..]);
    PP.ReleaseHolds(before, bufs, Slots(tasks[i..]), k);
    PP.ReleaseFreesSlot(bufs, k);
    forall x ensures x in Slots(tasks[i + 1..]) <==> x in Slots(tasks[i..]) - {k} {
      if x in Slots(tasks[i + 1..]) {
        var h :| 0 <= h < |tasks[i + 1..]| && tasks[i + 1..][h].slot == x;
        assert tasks[i..][h + 1].slot == x && tasks[i + 1 + h].slot != k;
      }
      if x in Slots(tasks[i..]) && x != k {
        var h :| 0 <= h < |tasks[i..]| && tasks[i..][h].slot == x;
        assert h > 0 && tasks[i + 1..][h - 1].slot == x;
      }
    }
    assert Slots(tasks[i + 1..]) == Slots(tasks[i..]) - {k};
  }

  lemma {:induction false} NothingWritten(crc: Checksum, gpu: Mem, blocks: seq<Block>)
    ensures Written(crc, gpu, blocks[..0], [], [])
  {
    assert blocks[..0] == [];
  }

  /** One block: its bytes to device.bin and its entries to the manifest. */
  method WriteBlock(crc: Checksum, ghost gpu: Mem, blocks: seq<Block>, i: nat, data: Bytes, off: nat,
                    device: Bytes, manifest: seq<Entry>)
    returns (device': Bytes, manifest': seq<Entry>)
    requires i < |blocks| && Written(crc, gpu, blocks[..i], device, manifest) && WellFormed(blocks[i])
    requires data == Read(gpu, blocks[i].base, blocks[i].size) && off == BlockTotal(blocks[..i])
    ensures Written(crc, gpu, blocks[..i + 1], device', manifest')
  {
    var b := blocks[i];
    FlattenSnoc(blocks[..i], b);
    AppendBlock(crc, gpu, Flatten(blocks[..i]), b);
    assert blocks[..i + 1] == blocks[..i] + [b] && blocks[..i + 1][..i] == blocks[..i];
    var entries := WriteParts(crc, b.parts, b.base, data, off);
    device' := device + data;
    manifest' := manifest + entries;
  }

  method GiveBack(ghost before: seq<PP.Buf>, bufs: seq<PP.Buf>, tasks: seq<Task>, i: nat) returns (after: seq<PP.Buf>)
    requires i < |tasks| && StillHeld(before, bufs, tasks, i)
    ensures StillHeld(before, after, tasks, i + 1)
  {
    ReleaseNext(before, bufs, tasks, i);
    var pool := new PP.Pool();
    pool.bufs := bufs;
    pool.Release(tasks[i].dst.value);
    after := pool.bufs;
  }

  /** The write loop: device.bin, the manifest, and every buffer back to the pool. */
  method WriteChunks(crc: Checksum, ghost gpu: Mem, blocks: seq<Block>, offsets: seq<nat>, tasks: seq<Task>,
                     host: Mem, ghost before: seq<PP.Buf>, bufs: seq<PP.Buf>)
    returns (device: Bytes, manifest: seq<Entry>, after: seq<PP.Buf>)
    requires Fetched(gpu, blocks, tasks, host) && StillHeld(before, bufs, tasks, 0)
    requires |offsets| == |blocks| && forall i | 0 <= i < |blocks| :: offsets[i] == BlockTotal(blocks[..i])
    ensures Written(crc, gpu, blocks, device, manifest)
    ensures PP.Holding(before, after, {})
  {
    device, manifest, after := [], [], bufs;
    NothingWritten(crc, gpu, blocks);
    for i := 0 to |blocks|
      invariant Written(crc, gpu, blocks[..i], device, manifest)
      invariant StillHeld(before, after, tasks, i)
    {
      var b := blocks[i];
      var data := Read(host, tasks[i].dst.value, b.size);
      device, manifest := WriteBlock(crc, gpu, blocks, i, data, offsets[i], device, manifest);
      after := GiveBack(before, after, tasks, i);
    }
    assert blocks[..|blocks|] == blocks && tasks[|blocks|..] == [];
  }

  /** The first nonzero error code of the tasks, or 0. */
  method FirstError(tasks: seq<Task>) returns (code: int)
    ensures code == 0 <==> forall i | 0 <= i < |tasks| :: tasks[i].err == 0
    ensures code != 0 ==> exists i | 0 <= i < |tasks| ::
              tasks[i].err == code && forall h | 0 <= h < i :: tasks[h].err == 0
  {
    for i := 0 to |tasks|
      invariant forall h | 0 <= h < i :: tasks[h].err == 0
    {
      if tasks[i].err != 0 { return tasks[i].err; }
    }
    return 0;
  }

  function SnapshotJob(crc: Checksum, gpu: Mem, blocks: seq<Block>): Job
  {
    Job(seq(|blocks|, i requires 0 <= i < |blocks| => Read(gpu, blocks[i].base, blocks[i].size)), crc, true)
  }

  /** The shared state before the workers are spawned. */
  function SnapshotStart(blocks: seq<Block>, host: Mem, pool: seq<PP.Buf>, hardware: nat): State
  {
    Start(WorkerCount(hardware, |blocks|), seq(|blocks|, i => NewTask(None)), host, pool)
  }

  lemma {:induction false} StartSnapshot(crc: Checksum, gpu: Mem, blocks: seq<Block>, host: Mem, pool: seq<PP.Buf>,
                                         hardware: nat)
    requires PP.Valid(pool)
    ensures var job, start := SnapshotJob(crc, gpu, blocks), SnapshotStart(blocks, host, pool, hardware);
            && Content(job, start) && Control(|job.data|, start) && !HasError(start) && 0 < |start.workers|
            && (forall i | 0 <= i < |start.tasks| :: start.tasks[i].dst.None?)
            && PP.Holding(pool, pool, Slots(start.tasks))
            && (NoEmptyTask(job) <==> AllNonempty(blocks))
  {
    var job, start := SnapshotJob(crc, gpu, blocks), SnapshotStart(blocks, host, pool, hardware);
    StartInvariants(job, |start.workers|, seq(|job.data|, i => None), start.mem, pool);
    assert start.tasks == seq(|job.data|, i requires 0 <= i < |job.data| => NewTask(seq(|job.data|, i => None)[i]));
    assert Slots(start.tasks) == {};
    forall i | 0 <= i < |blocks| ensures |job.data[i]| == blocks[i].size {}
  }

  /** The workers' part: all blocks fetched, or an error code. */
  method FetchBlocks(crc: Checksum, blocks: seq<Block>, gpu: Mem, host: Mem, pool: seq<PP.Buf>, hardware: nat,
                     willing: bool)
    returns (rc: int, s: State, ghost run: seq<Choice>)
    requires PP.Valid(pool) && forall i | 0 <= i < |blocks| :: WellFormed(blocks[i])
    ensures Content(SnapshotJob(crc, gpu, blocks), SnapshotStart(blocks, host, pool, hardware))
    ensures var job, start := SnapshotJob(crc, gpu, blocks), SnapshotStart(blocks, host, pool, hardware);
            && s == Exec(job, start, run) && Joined(s)
            && (rc == 0 <==> AllNonempty(blocks) && !Refused(job, start, run))
            && (willing ==> !Refused(job, start, run))
    ensures PP.Holding(pool, s.bufs, Slots(s.tasks))
    ensures rc == 0 ==> Fetched(gpu, blocks, s.tasks, s.mem) && StillHeld(pool, s.bufs, s.tasks, 0)
  {
    var job, start := SnapshotJob(crc, gpu, blocks), SnapshotStart(blocks, host, pool, hardware);
    StartSnapshot(crc, gpu, blocks, host, pool, hardware);
    s, run := Join(job, start, willing);
    JoinOutcome(job, s);
    JoinVerdict(job, start, run);
    ExecKeepsHolding(job, start, run, pool);
    assert s.tasks[0..] == s.tasks;
    rc := 0;
    if s.fail != 0 { rc := FirstError(s.tasks); }
  }

  /** The call gets as far as the workers, and they fail or device.bin cannot be opened. */
  predicate KeepsBuffers(env: Environment, fetched: bool)
  {
    env.unsupported.None? && env.quiesced && !(fetched && env.opens)
  }

  /** Reports success exactly when every call around the workers succeeds, no block of the allocations is
      empty and the driver refuses the workers nothing.  Then it has written exactly the image of its
      allocations taken one by one in order, and given back every host buffer; a run whose workers fail
      writes nothing and, as one that cannot open device.bin, keeps every buffer that its tasks got. */
  method SnapshotWrite(crc: Checksum, allocs: seq<AllocRec>, gpu: Mem, host: Mem, pool: seq<PP.Buf>,
                       hardware: nat, env: Environment)
    returns (rc: int, device: Bytes, manifest: seq<Entry>, after: seq<PP.Buf>, ghost run: seq<Choice>)
    requires forall i | 0 <= i < |allocs| :: allocs[i].base + allocs[i].size < U64
    requires PP.Valid(pool)
    requires env.unsupported.Some? ==> env.unsupported.value > 0
    ensures rc == 0 ==> device == NaiveDevice(gpu, allocs) && manifest == NaiveManifest(crc, gpu, allocs, 0)
    ensures var job, start := SnapshotJob(crc, gpu, Blocks(allocs)), SnapshotStart(Blocks(allocs), host, pool, hardware);
            && Content(job, start)
            && PP.Holding(pool, after, if KeepsBuffers(env, NoEmptyBlock(allocs) && !Refused(job, start, run))
                                       then Slots(Exec(job, start, run).tasks) else {})
    ensures var job, start := SnapshotJob(crc, gpu, Blocks(allocs)), SnapshotStart(Blocks(allocs), host, pool, hardware);
            && Content(job, start)
            && (rc == 0 <==> AllWell(env) && NoEmptyBlock(allocs) && !Refused(job, start, run))
            && (env.willing ==> !Refused(job, start, run))
            && (env.unsupported.None? && env.quiesced ==> Joined(Exec(job, start, run)))
            && (!NoEmptyBlock(allocs) || Refused(job, start, run) ==> device == [] && manifest == [])
    ensures env.unsupported.Some? ==> rc == -(env.unsupported.value as int)
    ensures env.unsupported.None? && !env.quiesced ==> rc == -25
  {
    device, manifest, after, run := [], [], pool, [];
    StartSnapshot(crc, gpu, Blocks(allocs), host, pool, hardware);
    if env.unsupported.Some? { rc := -(env.unsupported.value as int); return; }
    if !env.quiesced { rc := -25; return; }
    var blocks := CoalesceAllocs(allocs);
    var offsets := Layout(blocks);
    var s;
    rc, s, run := FetchBlocks(crc, blocks, gpu, host, pool, hardware, env.willing);
    after := s.bufs;
    if rc != 0 { return; }
    if !env.opens { rc := -2; return; }
    device, manifest, after := WriteChunks(crc, gpu, blocks, offsets, s.tasks, s.mem, pool, s.bufs);
    rc := env.later;
  }
}
