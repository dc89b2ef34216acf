/** Snapshot followed by restore (shim/snapshot.cu, shim/restore.cu). */
module RoundTrip {
  import opened Bytes
  import opened Memory
  import opened Format
  import opened Coalesce
  import opened Snapshot
  import opened Restore
  import opened Sorting
  import PP = PinnedPool

  ghost predicate SameRange(before: Mem, after: Mem, base: nat, size: nat)
  {
    forall addr | base <= addr < base + size :: after(addr) == before(addr)
  }

  /** Every byte of every allocation is as it was. */
  ghost predicate Preserved(before: Mem, after: Mem, allocs: seq<AllocRec>)
  {
    forall i | 0 <= i < |allocs| :: SameRange(before, after, allocs[i].base, allocs[i].size)
  }

  lemma {:induction false} EntryFields(crc: Checksum, mem: Mem, allocs: seq<AllocRec>, m: seq<Entry>, i: nat)
    requires i < |allocs| && allocs[i].order < U32 && SameChunks(NaiveManifest(crc, mem, allocs, 0), m)
    ensures m[i].order == allocs[i].order && m[i].ptr == allocs[i].base && m[i].size == allocs[i].size
  {
    NaiveEntryAt(crc, mem, allocs, 0, i);
  }

  /** The manifest of live allocations, whatever digests were added to it, is in replay order already, so
      the stable sort changes nothing, and its addresses do not overlap. */
  lemma {:induction false} ManifestReplays(crc: Checksum, mem: Mem, allocs: seq<AllocRec>, m: seq<Entry>)
    requires LiveAllocs(allocs) && SameChunks(NaiveManifest(crc, mem, allocs, 0), m)
    ensures Replayed(m) == m && EntriesApart(m)
  {
    forall i | 0 <= i < |allocs|
      ensures m[i].order == allocs[i].order && m[i].ptr == allocs[i].base && m[i].size == allocs[i].size
    {
      EntryFields(crc, mem, allocs, m, i);
    }
    SortOfOrdered(ByOrder(), m);
    forall i, h | 0 <= i < |m| && 0 <= h < |m| && i != h
      ensures Disjoint(m[i].ptr, m[i].size, m[h].ptr, m[h].size)
    {
      var lo, hi := if i < h then i else h, if i < h then h else i;
      assert Disjoint(allocs[lo].base, allocs[lo].size, allocs[hi].base, allocs[hi].size);
    }
  }

  /** The addresses and sizes of the allocations, in their order. */
  function Places(allocs: seq<AllocRec>): seq<(nat, nat)>
  {
    seq(|allocs|, i requires 0 <= i < |allocs| => (allocs[i].base, allocs[i].size))
  }

  ghost predicate NoEmptyAlloc(allocs: seq<AllocRec>)
  {
    forall i | 0 <= i < |allocs| :: allocs[i].size > 0
  }

  /** Every allocation can be put back at its address, by the allocator or by mapping. */
  ghost predicate AddressesCome(allocs: seq<AllocRec>, answers: seq<Answer>)
  {
    |answers| >= |allocs| &&
    forall i | 0 <= i < |allocs| :: answers[i].alloc == Some(allocs[i].base) || answers[i].remap == 0
  }

  /** Which entries of a snapshot's manifest load: with a willing driver all but the empty ones, an empty
      one never. */
  lemma {:induction false} ImageLoads(crc: Checksum, mem: Mem, allocs: seq<AllocRec>, m: seq<Entry>, device: Bytes,
                                      answers: seq<Answer>, pool: seq<PP.Buf>, willing: bool)
    requires LiveAllocs(allocs) && SameChunks(NaiveManifest(crc, mem, allocs, 0), m) && PP.Valid(pool)
    requires |device| == |NaiveDevice(mem, allocs)| && |answers| >= |allocs|
    ensures AllLoad(m, answers, device, pool, willing, |m|) ==> NoEmptyAlloc(allocs) && AddressesCome(allocs, answers)
    ensures willing && NoEmptyAlloc(allocs) && AddressesCome(allocs, answers) ==>
        AllLoad(m, answers, device, pool, willing, |m|)
  {
    forall i | 0 <= i < |allocs|
      ensures Loads(m, answers, device, pool, willing, i) ==>
                allocs[i].size > 0 && (answers[i].alloc == Some(allocs[i].base) || answers[i].remap == 0)
      ensures willing && allocs[i].size > 0 && (answers[i].alloc == Some(allocs[i].base) || answers[i].remap == 0) ==>
                Loads(m, answers, device, pool, willing, i)
    {
      EntryFields(crc, mem, allocs, m, i);
      NaiveChunk(crc, mem, allocs, i);
      if allocs[i].size == 0 { EmptyEntryNeverLoads(m, answers, device, pool, willing, i); }
      if willing { WillingLoads(m, answers, device, pool, i); }
    }
  }

  /** Restoring the image of some live allocations puts every byte of every one of them back at its
      address and asks for the addresses in the original order of allocation.  It never succeeds with an
      empty allocation; with a willing driver that is, besides the addresses, all that can fail. */
  method RestoreImage(crc: Checksum, ghost allocs: seq<AllocRec>, ghost gpu: Mem, device: Bytes, manifest: seq<Entry>,
                      pool: seq<PP.Buf>, host: Mem, garbage: Mem, answers: seq<Answer>, hardware: nat,
                      env: RestoreEnvironment)
    returns (rc: int, mem: Mem, order: seq<(nat, nat)>, after: seq<PP.Buf>)
    requires LiveAllocs(allocs) && PP.Valid(pool) && |answers| >= |allocs|
    requires SameChunks(NaiveManifest(crc, gpu, allocs, 0), manifest)
    ensures rc == 0 && device == NaiveDevice(gpu, allocs) ==> Preserved(gpu, mem, allocs)
    ensures rc == 0 ==> order == Places(allocs)
    ensures rc == 0 ==> PP.Holding(pool, after, {})
    ensures |device| == |NaiveDevice(gpu, allocs)| && rc == 0 ==>
              env.early == 0 && env.synced && NoEmptyAlloc(allocs) && AddressesCome(allocs, answers)
    ensures |device| == |NaiveDevice(gpu, allocs)| && env.willing ==>
              (rc == 0 <==> env.early == 0 && env.synced && NoEmptyAlloc(allocs) && AddressesCome(allocs, answers))
  {
    ManifestReplays(crc, gpu, allocs, manifest);
    ghost var run, held;
    rc, mem, order, after, run, held := RestoreLoad(crc, manifest, device, pool, host, garbage, answers, hardware, env);
    NaiveRequests(crc, gpu, allocs, manifest);
    if |device| == |NaiveDevice(gpu, allocs)| {
      ImageLoads(crc, gpu, allocs, manifest, device, answers, pool, env.willing);
    }
    if rc == 0 && device == NaiveDevice(gpu, allocs) {
      forall i | 0 <= i < |allocs| ensures SameRange(gpu, mem, allocs[i].base, allocs[i].size) {
        NaiveChunk(crc, gpu, allocs, i);
        ReadDetermines(mem, gpu, allocs[i].base, allocs[i].size);
      }
    }
  }

  lemma {:induction false} NaiveRequests(crc: Checksum, mem: Mem, allocs: seq<AllocRec>, m: seq<Entry>)
    requires SameChunks(NaiveManifest(crc, mem, allocs, 0), m)
    ensures Requests(m) == Places(allocs)
  {
    forall i | 0 <= i < |allocs| { NaiveEntryAt(crc, mem, allocs, 0, i); }
  }

  lemma {:induction false} ReadDetermines(a: Mem, b: Mem, base: nat, size: nat)
    requires Read(a, base, size) == Read(b, base, size)
    ensures SameRange(b, a, base, size)
  {
    forall addr | base <= addr < base + size ensures a(addr) == b(addr) {
      assert Read(a, base, size)[addr - base] == Read(b, base, size)[addr - base];
    }
  }

  /** Neither driver refuses anything and every call around succeeds. */
  predicate Smooth(env1: Environment, env2: RestoreEnvironment)
  {
    env1.willing && AllWell(env1) && env2.willing && env2.early == 0 && env2.synced
  }

  /** When both calls return 0 the round trip is the identity on every live allocation, for every
      interleaving of the copy workers of each phase, whatever the host buffers and the new device
      memory held before.  With drivers that refuse nothing both calls do return 0, if and only if no
      allocation is empty. */
  method SnapshotThenRestore(crc: Checksum, allocs: seq<AllocRec>, gpu: Mem, garbage: Mem,
                             pool1: seq<PP.Buf>, host1: Mem, hardware1: nat, env1: Environment,
                             pool2: seq<PP.Buf>, host2: Mem, answers: seq<Answer>, hardware2: nat,
                             env2: RestoreEnvironment)
    returns (rc1: int, rc2: int, mem: Mem, order: seq<(nat, nat)>)
    requires LiveAllocs(allocs) && PP.Valid(pool1) && PP.Valid(pool2) && |answers| >= |allocs|
    requires env1.unsupported.Some? ==> env1.unsupported.value > 0
    ensures rc1 == 0 && rc2 == 0 ==> Preserved(gpu, mem, allocs) && order == Places(allocs)
    ensures rc1 == 0 && rc2 == 0 ==> NoEmptyAlloc(allocs)
    ensures Smooth(env1, env2) && AddressesCome(allocs, answers) ==>
              && (rc1 == 0 <==> NoEmptyBlock(allocs))
              && (rc1 == 0 && rc2 == 0 <==> NoEmptyAlloc(allocs))
  {
    mem, order, rc2 := garbage, [], -1;
    var device, manifest, after;
    ghost var run;
    if forall i | 0 <= i < |allocs| :: allocs[i].size > 0 { NonemptyAllocsMakeNonemptyBlocks(allocs); }
    rc1, device, manifest, after, run := SnapshotWrite(crc, allocs, gpu, host1, pool1, hardware1, env1);
    if rc1 != 0 { return; }
    rc2, mem, order, after := RestoreImage(crc, allocs, gpu, device, manifest, pool2, host2, garbage, answers,
        hardware2, env2);
  }

  lemma {:induction false} NonemptyAllocsMakeNonemptyBlocks(allocs: seq<AllocRec>)
    requires NoEmptyAlloc(allocs)
    ensures NoEmptyBlock(allocs)
  {
    if allocs != [] {
      NonemptyAllocsMakeNonemptyBlocks(allocs[..|allocs| - 1]);
    }
  }

  /** The two ways in which empty allocations fail: one that is alone is a block that no snapshot can
      fetch; one that merges with its neighbour is snapshotted into an image that no restore can load. */
  lemma {:induction false} EmptyAllocationsFail()
    ensures var alone := [AllocRec(64, 0, 0, 0, 1)];
            LiveAllocs(alone) && !NoEmptyBlock(alone)
    ensures var merged := [AllocRec(64, 16, 0, 0, 1), AllocRec(80, 0, 0, 0, 2)];
            LiveAllocs(merged) && NoEmptyBlock(merged) && !NoEmptyAlloc(merged)
  {
    var alone := [AllocRec(64, 0, 0, 0, 1)];
    EmptyBlockIffLoneEmpty(alone);
    assert Alone(alone, 0);
    var merged := [AllocRec(64, 16, 0, 0, 1), AllocRec(80, 0, 0, 0, 2)];
    EmptyBlockIffLoneEmpty(merged);
    assert Touching(merged[0], merged[1]);
    assert merged[1].size == 0;
  }
}
