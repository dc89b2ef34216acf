/** shim/coalesce.cpp: neighbouring allocations merged into blocks, and the layout of device.bin and
    the manifest that shim/snapshot.cu builds from the blocks. */
module Coalesce {
  import opened Bytes
  import opened Memory
  import opened Format

  datatype Block = Block(base: nat, size: nat, ctx: nat, flags: nat, order: nat, parts: seq<AllocRec>)

  function Flatten(blocks: seq<Block>): seq<AllocRec>
  {
    if blocks == [] then [] else blocks[0].parts + Flatten(blocks[1..])
  }

  function TotalSize(parts: seq<AllocRec>): nat
  {
    if parts == [] then 0 else TotalSize(parts[..|parts| - 1]) + parts[|parts| - 1].size
  }

  /** The parts lie end to end from base, in one context. */
  predicate Contiguous(parts: seq<AllocRec>, base: nat, ctx: nat)
  {
    forall i | 0 <= i < |parts| :: parts[i].ctx == ctx && parts[i].base == base + TotalSize(parts[..i])
  }

  predicate WellFormed(b: Block)
  {
    && b.parts != []
    && b.size == TotalSize(b.parts)
    && Contiguous(b.parts, b.base, b.ctx)
    && b.flags == b.parts[0].flags && b.order == b.parts[0].order
  }

  predicate Mergeable(b: Block, c: Block)
  {
    b.ctx == c.ctx && b.base + b.size == c.base
  }

  /** What coalescing promises: nothing lost or reordered, each block one contiguous range, and no two
      neighbouring blocks that could still be merged. */
  ghost predicate Coalesced(allocs: seq<AllocRec>, blocks: seq<Block>)
  {
    && Flatten(blocks) == allocs
    && (forall i | 0 <= i < |blocks| :: WellFormed(blocks[i]))
    && (forall i | 0 <= i < |blocks| - 1 :: !Mergeable(blocks[i], blocks[i + 1]))
  }

  lemma {:induction false} FlattenSnoc(blocks: seq<Block>, b: Block)
    ensures Flatten(blocks + [b]) == Flatten(blocks) + b.parts
  {
    if blocks == [] {
      assert Flatten([b]) == b.parts + Flatten([]);
    } else {
      FlattenSnoc(blocks[1..], b);
      assert (blocks + [b])[1..] == blocks[1..] + [b];
    }
  }

  function Single(a: AllocRec): Block { Block(a.base, a.size, a.ctx, a.flags, a.order, [a]) }

  lemma {:induction false} SingleWellFormed(a: AllocRec)
    ensures WellFormed(Single(a))
  {
    assert [a][..0] == [] && TotalSize([a]) == TotalSize([a][..0]) + a.size;
  }

  lemma {:induction false} GrowWellFormed(b: Block, a: AllocRec)
    requires WellFormed(b) && a.ctx == b.ctx && a.base == b.base + b.size
    ensures WellFormed(b.(size := b.size + a.size, parts := b.parts + [a]))
  {
    var parts := b.parts + [a];
    assert parts[..|parts| - 1] == b.parts;
    forall i | 0 <= i < |parts| ensures parts[i].ctx == b.ctx && parts[i].base == b.base + TotalSize(parts[..i]) {
      assert i < |b.parts| ==> parts[..i] == b.parts[..i];
      assert parts[..|b.parts|] == b.parts;
    }
  }

  /** An allocation that starts where the last block ends joins it. */
  lemma {:induction false} GrowLast(allocs: seq<AllocRec>, out: seq<Block>, cur: Block, a: AllocRec)
    requires Coalesced(allocs, out + [cur]) && a.ctx == cur.ctx && a.base == cur.base + cur.size
    ensures Coalesced(allocs + [a], out + [cur.(size := cur.size + a.size, parts := cur.parts + [a])])
  {
    var grown := cur.(size := cur.size + a.size, parts := cur.parts + [a]);
    var before, after := out + [cur], out + [grown];
    assert before[|out|] == cur;
    FlattenSnoc(out, cur);
    FlattenSnoc(out, grown);
    GrowWellFormed(cur, a);
    assert Flatten(out) + (cur.parts + [a]) == (Flatten(out) + cur.parts) + [a];
    forall i | 0 <= i < |after| ensures WellFormed(after[i]) {
      assert i < |out| ==> after[i] == before[i];
    }
    forall i | 0 <= i < |after| - 1 ensures !Mergeable(after[i], after[i + 1]) {
      assert !Mergeable(before[i], before[i + 1]);
    }
  }

  /** Any other allocation starts a block of its own. */
  lemma {:induction false} StartNew(allocs: seq<AllocRec>, out: seq<Block>, cur: Block, a: AllocRec)
    requires Coalesced(allocs, out + [cur]) && !(a.ctx == cur.ctx && a.base == cur.base + cur.size)
    ensures Coalesced(allocs + [a], out + [cur] + [Single(a)])
  {
    var before, after := out + [cur], out + [cur] + [Single(a)];
    FlattenSnoc(before, Single(a));
    SingleWellFormed(a);
    forall i | 0 <= i < |after| - 1 ensures !Mergeable(after[i], after[i + 1]) {
      assert i < |before| - 1 ==> !Mergeable(before[i], before[i + 1]);
    }
  }

  /** The block that a joins, grown by it. */
  function Grown(b: Block, a: AllocRec): Block
  {
    b.(size := b.size + a.size, parts := b.parts + [a])
  }

  predicate Joins(b: Block, a: AllocRec)
  {
    a.ctx == b.ctx && a.base == b.base + b.size
  }

  /** The blocks of an allocation list. */
  function Blocks(allocs: seq<AllocRec>): (r: seq<Block>)
    ensures r == [] <==> allocs == []
  {
    if allocs == [] then [] else
    var front, a := Blocks(allocs[..|allocs| - 1]), allocs[|allocs| - 1];
    if front != [] && Joins(front[|front| - 1], a) then front[..|front| - 1] + [Grown(front[|front| - 1], a)]
    else front + [Single(a)]
  }

  lemma {:induction false} BlocksAreCoalesced(allocs: seq<AllocRec>)
    ensures Coalesced(allocs, Blocks(allocs))
  {
    if allocs != [] {
      var front, a := allocs[..|allocs| - 1], allocs[|allocs| - 1];
      BlocksAreCoalesced(front);
      assert allocs == front + [a];
      if front == [] {
        SingleWellFormed(a);
        FlattenSnoc([], Single(a));
        assert [] + [Single(a)] == [Single(a)] && [] + [a] == [a];
      } else {
        var blocks := Blocks(front);
        var out, cur := blocks[..|blocks| - 1], blocks[|blocks| - 1];
        assert out + [cur] == blocks;
        if Joins(cur, a) { GrowLast(front, out, cur, a); } else { StartNew(front, out, cur, a); }
      }
    }
  }

  method CoalesceAllocs(allocs: seq<AllocRec>) returns (out: seq<Block>)
    requires forall i | 0 <= i < |allocs| :: allocs[i].base + allocs[i].size < U64
    ensures out == Blocks(allocs) && Coalesced(allocs, out)
  {
    out := MergeLoop(allocs);
    BlocksAreCoalesced(allocs);
  }

  method MergeLoop(allocs: seq<AllocRec>) returns (out: seq<Block>)
    requires forall i | 0 <= i < |allocs| :: allocs[i].base + allocs[i].size < U64
    ensures out == Blocks(allocs)
  {
    if allocs == [] { return []; }
    out := [];
    var cur := Single(allocs[0]);
    for i := 1 to |allocs|
      invariant out + [cur] == Blocks(allocs[..i])
      invariant cur.base + cur.size < U64
    {
      NextBlocks(allocs, i, out, cur);
      out, cur := AddAlloc(out, cur, allocs[i]);
    }
    assert allocs[..|allocs|] == allocs;
    out := out + [cur];
  }

  /** The loop's body; ends are 64-bit sums. */
  method AddAlloc(out: seq<Block>, cur: Block, a: AllocRec) returns (out': seq<Block>, cur': Block)
    requires cur.base + cur.size < U64 && a.base + a.size < U64
    ensures out' + [cur'] == if Joins(cur, a) then out + [Grown(cur, a)] else out + [cur] + [Single(a)]
    ensures cur'.base + cur'.size < U64
  {
    out', cur' := out, cur;
    var end := (cur.base + cur.size) % U64;
    if a.ctx == cur.ctx && a.base == end {
      cur' := cur.(size := cur.size + a.size, parts := cur.parts + [a]);
      return;
    }
    out' := out + [cur];
    cur' := Single(a);
  }

  lemma {:induction false} BlocksSnoc(allocs: seq<AllocRec>, out: seq<Block>, cur: Block, a: AllocRec)
    requires Blocks(allocs) == out + [cur]
    ensures Blocks(allocs + [a]) == if Joins(cur, a) then out + [Grown(cur, a)] else out + [cur] + [Single(a)]
  {
    assert (allocs + [a])[..|allocs|] == allocs;
    assert (out + [cur])[..|out|] == out;
  }

  lemma {:induction false} NextBlocks(allocs: seq<AllocRec>, i: nat, out: seq<Block>, cur: Block)
    requires 0 < i < |allocs| && Blocks(allocs[..i]) == out + [cur]
    ensures Blocks(allocs[..i + 1]) ==
            if Joins(cur, allocs[i]) then out + [Grown(cur, allocs[i])] else out + [cur] + [Single(allocs[i])]
  {
    assert allocs[..i + 1] == allocs[..i] + [allocs[i]];
    BlocksSnoc(allocs[..i], out, cur, allocs[i]);
  }

  // ---------- empty blocks ----------

  predicate NoEmptyBlock(allocs: seq<AllocRec>)
  {
    AllNonempty(Blocks(allocs))
  }

  predicate AllNonempty(blocks: seq<Block>)
  {
    forall i | 0 <= i < |blocks| :: blocks[i].size > 0
  }

  lemma {:induction false} AllNonemptySnoc(out: seq<Block>, b: Block)
    ensures AllNonempty(out + [b]) <==> AllNonempty(out) && b.size > 0
  {
    assert (out + [b])[|out|] == b;
    forall i | 0 <= i < |out| ensures (out + [b])[i] == out[i] {}
  }

  /** b starts where a ends, in the same context. */
  predicate Touching(a: AllocRec, b: AllocRec)
  {
    a.ctx == b.ctx && a.base + a.size == b.base
  }

  /** Allocation i merges with neither neighbour. */
  predicate Alone(allocs: seq<AllocRec>, i: nat)
    requires i < |allocs|
  {
    && (i > 0 ==> !Touching(allocs[i - 1], allocs[i]))
    && (i + 1 < |allocs| ==> !Touching(allocs[i], allocs[i + 1]))
  }

  /** An empty allocation that merges with no neighbour. */
  predicate LoneEmpty(allocs: seq<AllocRec>)
  {
    exists i :: 0 <= i < |allocs| && allocs[i].size == 0 && Alone(allocs, i)
  }

  ghost predicate DistinctBases(allocs: seq<AllocRec>)
  {
    forall i, j | 0 <= i < j < |allocs| :: allocs[i].base != allocs[j].base
  }

  /** One more allocation, given the blocks before it. */
  lemma {:induction false} OneMoreAlloc(front: seq<AllocRec>, a: AllocRec)
    requires front != [] && DistinctBases(front + [a])
    ensures NoEmptyBlock(front + [a]) <==>
            NoEmptyBlock(front) && (Touching(front[|front| - 1], a) || a.size > 0)
    ensures Touching(front[|front| - 1], a) ==> Blocks(front)[|Blocks(front)| - 1].size > 0
  {
    var blocks := Blocks(front);
    var out, cur := blocks[..|blocks| - 1], blocks[|blocks| - 1];
    assert out + [cur] == blocks;
    assert DistinctBases(front) by {
      forall i, j | 0 <= i < j < |front| ensures front[i].base != front[j].base {
        assert (front + [a])[i].base != (front + [a])[j].base;
      }
    }
    assert (front + [a])[|front| - 1].base != (front + [a])[|front|].base;
    BlocksSnoc(front, out, cur, a);
    AllNonemptySnoc(out, cur);
    AllNonemptySnoc(out, Grown(cur, a));
    AllNonemptySnoc(out + [cur], Single(a));
  }

  /** For distinct addresses, as the tracker keeps them: some block is empty if and only if some empty
      allocation merges with no neighbour. */
  lemma {:induction false} EmptyBlockIffLoneEmpty(allocs: seq<AllocRec>)
    requires DistinctBases(allocs)
    ensures NoEmptyBlock(allocs) <==> !LoneEmpty(allocs)
  {
    if |allocs| == 1 {
      assert allocs[..0] == [] && Blocks(allocs) == [] + [Single(allocs[0])];
      AllNonemptySnoc([], Single(allocs[0]));
      assert Alone(allocs, 0);
    } else if |allocs| > 1 {
      var front, a := allocs[..|allocs| - 1], allocs[|allocs| - 1];
      assert allocs == front + [a];
      EmptyBlockIffLoneEmpty(front);
      OneMoreAlloc(front, a);
      if Touching(front[|front| - 1], a) {
        EmptyJoined(front, a);
      } else {
        EmptyApart(front, a);
      }
    }
  }

  lemma {:induction false} EmptyJoined(front: seq<AllocRec>, a: AllocRec)
    requires front != [] && DistinctBases(front + [a]) && Touching(front[|front| - 1], a)
    ensures LoneEmpty(front + [a]) <==> exists i :: 0 <= i < |front| - 1 && front[i].size == 0 && Alone(front, i)
  {
    var allocs := front + [a];
    assert !Alone(allocs, |front| - 1) && !Alone(allocs, |front|);
    forall i | 0 <= i < |front| - 1 ensures Alone(allocs, i) == Alone(front, i) {}
  }

  lemma {:induction false} EmptyApart(front: seq<AllocRec>, a: AllocRec)
    requires front != [] && !Touching(front[|front| - 1], a)
    ensures LoneEmpty(front + [a]) <==> LoneEmpty(front) || a.size == 0
  {
    var allocs := front + [a];
    assert Alone(allocs, |front|) && allocs[|front|] == a;
    forall i | 0 <= i < |front| ensures Alone(allocs, i) == Alone(front, i) && allocs[i] == front[i] {}
  }

  // ---------- the image that the blocks produce ----------

  /** device.bin when every allocation is written alone, in order. */
  ghost function NaiveDevice(mem: Mem, allocs: seq<AllocRec>): Bytes
  {
    if allocs == [] then [] else Read(mem, allocs[0].base, allocs[0].size) + NaiveDevice(mem, allocs[1..])
  }

  /** The entry of one allocation whose bytes are data and start at offset off; the shim computes no
      content digest. */
  function EntryOf(crc: Checksum, a: AllocRec, data: Bytes, off: nat): Entry
  {
    Entry(a.base, a.size, off, crc(data), a.order % U32, [])
  }

  ghost function NaiveManifest(crc: Checksum, mem: Mem, allocs: seq<AllocRec>, off: nat): (r: seq<Entry>)
    ensures |r| == |allocs|
  {
    if allocs == [] then [] else
    [EntryOf(crc, allocs[0], Read(mem, allocs[0].base, allocs[0].size), off)]
    + NaiveManifest(crc, mem, allocs[1..], off + allocs[0].size)
  }

  lemma {:induction false} NaiveDeviceAppend(mem: Mem, a: seq<AllocRec>, b: seq<AllocRec>)
    ensures NaiveDevice(mem, a + b) == NaiveDevice(mem, a) + NaiveDevice(mem, b)
  {
    if a == [] {
      assert a + b == b;
    } else {
      assert (a + b)[1..] == a[1..] + b;
      NaiveDeviceAppend(mem, a[1..], b);
    }
  }

  lemma {:induction false} NaiveManifestAppend(crc: Checksum, mem: Mem, a: seq<AllocRec>, b: seq<AllocRec>, off: nat)
    ensures NaiveManifest(crc, mem, a + b, off) == NaiveManifest(crc, mem, a, off)
        + NaiveManifest(crc, mem, b, off + |NaiveDevice(mem, a)|)
    decreases a
  {
    if a == [] {
      assert a + b == b;
    } else {
      assert (a + b)[1..] == a[1..] + b;
      NaiveManifestAppend(crc, mem, a[1..], b, off + a[0].size);
    }
  }

  lemma {:induction false} NaiveDeviceSnoc(crc: Checksum, mem: Mem, parts: seq<AllocRec>, a: AllocRec)
    ensures NaiveDevice(mem, parts + [a]) == NaiveDevice(mem, parts) + Read(mem, a.base, a.size)
  {
    NaiveDeviceAppend(mem, parts, [a]);
    assert NaiveDevice(mem, [a]) == Read(mem, a.base, a.size) + NaiveDevice(mem, []);
  }

  lemma {:induction false} ContiguousFront(parts: seq<AllocRec>, base: nat, ctx: nat)
    requires Contiguous(parts, base, ctx) && parts != []
    ensures var n := |parts| - 1;
            && Contiguous(parts[..n], base, ctx)
            && parts[n].base == base + TotalSize(parts[..n])
            && TotalSize(parts) == TotalSize(parts[..n]) + parts[n].size
  {
    var n := |parts| - 1;
    forall i | 0 <= i < n ensures parts[..n][i].ctx == ctx && parts[..n][i].base == base + TotalSize(parts[..n][..i]) {
      assert parts[..n][..i] == parts[..i];
    }
  }

  /** Reading the merged range is reading its parts one after another. */
  lemma {:induction false} ContiguousDevice(crc: Checksum, mem: Mem, parts: seq<AllocRec>, base: nat, ctx: nat)
    requires Contiguous(parts, base, ctx)
    ensures NaiveDevice(mem, parts) == Read(mem, base, TotalSize(parts))
  {
    if parts != [] {
      var n := |parts| - 1;
      ContiguousFront(parts, base, ctx);
      ContiguousDevice(crc, mem, parts[..n], base, ctx);
      NaiveDeviceSnoc(crc, mem, parts[..n], parts[n]);
      assert parts == parts[..n] + [parts[n]];
      ReadSplit(mem, base, TotalSize(parts[..n]), parts[n].size);
    }
  }

  predicate PartsFit(parts: seq<AllocRec>, base: nat, size: nat)
  {
    forall i | 0 <= i < |parts| :: base <= parts[i].base && parts[i].base - base + parts[i].size <= size
  }

  /** The entries that the write loop makes from one block whose bytes, data, start at offset off. */
  function BlockEntries(crc: Checksum, parts: seq<AllocRec>, base: nat, data: Bytes, off: nat): (r: seq<Entry>)
    requires PartsFit(parts, base, |data|)
    ensures |r| == |parts|
  {
    seq(|parts|, i requires 0 <= i < |parts| =>
      var rel := parts[i].base - base;
      EntryOf(crc, parts[i], data[rel..rel + parts[i].size], off + rel))
  }

  lemma {:induction false} TotalSizeMonotone(parts: seq<AllocRec>, i: nat)
    requires i < |parts|
    ensures TotalSize(parts[..i]) + parts[i].size <= TotalSize(parts)
    decreases |parts|
  {
    var n := |parts| - 1;
    if i < n {
      TotalSizeMonotone(parts[..n], i);
      assert parts[..n][..i] == parts[..i];
    }
  }

  lemma {:induction false} PartsInside(b: Block)
    requires WellFormed(b)
    ensures PartsFit(b.parts, b.base, b.size)
  {
    forall i | 0 <= i < |b.parts| { TotalSizeMonotone(b.parts, i); }
  }

  lemma {:induction false} BlockEntryAt(crc: Checksum, mem: Mem, b: Block, off: nat, i: nat)
    requires PartsFit(b.parts, b.base, b.size) && i < |b.parts|
    requires b.parts[i].base == b.base + TotalSize(b.parts[..i])
    ensures BlockEntries(crc, b.parts, b.base, Read(mem, b.base, b.size), off)[i] ==
        NaiveManifest(crc, mem, b.parts, off)[i]
  {
    ReadSlice(mem, b.base, b.size, b.parts[i].base - b.base, b.parts[i].size);
    NaiveEntryAt(crc, mem, b.parts, off, i);
  }

  /** What the write loop makes of one block is what writing its parts alone would make. */
  lemma {:induction false} BlockEntriesAreNaive(crc: Checksum, mem: Mem, b: Block, off: nat)
    requires WellFormed(b)
    ensures NaiveDevice(mem, b.parts) == Read(mem, b.base, b.size)
    ensures PartsFit(b.parts, b.base, b.size)
    ensures BlockEntries(crc, b.parts, b.base, Read(mem, b.base, b.size), off) == NaiveManifest(crc, mem, b.parts, off)
  {
    PartsInside(b);
    ContiguousDevice(crc, mem, b.parts, b.base, b.ctx);
    var got := BlockEntries(crc, b.parts, b.base, Read(mem, b.base, b.size), off);
    forall i | 0 <= i < |b.parts| ensures got[i] == NaiveManifest(crc, mem, b.parts, off)[i] {
      BlockEntryAt(crc, mem, b, off, i);
    }
  }

  lemma {:induction false} NaiveEntryAt(crc: Checksum, mem: Mem, allocs: seq<AllocRec>, off: nat, i: nat)
    requires i < |allocs|
    ensures var a := allocs[i];
            NaiveManifest(crc, mem, allocs, off)[i] ==
                EntryOf(crc, a, Read(mem, a.base, a.size), off + TotalSize(allocs[..i]))
    decreases allocs
  {
    if i > 0 {
      NaiveEntryAt(crc, mem, allocs[1..], off + allocs[0].size, i - 1);
      TotalSizeCons(allocs[..i]);
      assert allocs[..i][1..] == allocs[1..][..i - 1];
    }
  }

  lemma {:induction false} TotalSizeCons(allocs: seq<AllocRec>)
    requires allocs != []
    ensures TotalSize(allocs) == allocs[0].size + TotalSize(allocs[1..])
    decreases allocs
  {
    var n := |allocs| - 1;
    if n > 0 {
      TotalSizeCons(allocs[..n]);
      assert allocs[..n][1..] == allocs[1..][..n - 1];
    } else {
      assert TotalSize(allocs[..0]) == 0;
    }
  }

  lemma {:induction false} NaiveDeviceSize(mem: Mem, allocs: seq<AllocRec>)
    ensures |NaiveDevice(mem, allocs)| == TotalSize(allocs)
  {
    if allocs != [] {
      NaiveDeviceSize(mem, allocs[1..]);
      TotalSizeCons(allocs);
    }
  }

  lemma {:induction false} TotalSizeSnoc(allocs: seq<AllocRec>, i: nat)
    requires i < |allocs|
    ensures TotalSize(allocs[..i + 1]) == TotalSize(allocs[..i]) + allocs[i].size
  {
    assert allocs[..i + 1][..i] == allocs[..i];
  }

  lemma {:induction false} NaiveSplit(mem: Mem, allocs: seq<AllocRec>, i: nat)
    requires i < |allocs|
    ensures NaiveDevice(mem, allocs) ==
            NaiveDevice(mem, allocs[..i]) + Read(mem, allocs[i].base, allocs[i].size) + NaiveDevice(mem, allocs[i + 1..])
  {
    assert allocs == allocs[..i] + allocs[i..] && allocs[i..][1..] == allocs[i + 1..];
    NaiveDeviceAppend(mem, allocs[..i], allocs[i..]);
  }

  /** Entry i describes allocation i, and its range of device.bin holds exactly that allocation. */
  lemma {:induction false} NaiveChunk(crc: Checksum, mem: Mem, allocs: seq<AllocRec>, i: nat)
    requires i < |allocs|
    ensures var e, a, d := NaiveManifest(crc, mem, allocs, 0)[i], allocs[i], NaiveDevice(mem, allocs);
            && e == EntryOf(crc, a, Read(mem, a.base, a.size), TotalSize(allocs[..i]))
            && e.offset + e.size == TotalSize(allocs[..i + 1]) <= |d|
            && d[e.offset..e.offset + e.size] == Read(mem, a.base, a.size)
  {
    NaiveEntryAt(crc, mem, allocs, 0, i);
    TotalSizeSnoc(allocs, i);
    NaiveSplit(mem, allocs, i);
    NaiveDeviceSize(mem, allocs[..i]);
  }

  /** The manifest of a snapshot tiles device.bin from 0 without gaps, in allocation order. */
  lemma {:induction false} NaiveTiles(crc: Checksum, mem: Mem, allocs: seq<AllocRec>)
    ensures Tiled(NaiveManifest(crc, mem, allocs, 0), |NaiveDevice(mem, allocs)|)
  {
    var m := NaiveManifest(crc, mem, allocs, 0);
    NaiveDeviceSize(mem, allocs);
    forall i | 0 <= i < |allocs| - 1 ensures m[i].offset + m[i].size == m[i + 1].offset {
      NaiveChunk(crc, mem, allocs, i);
      NaiveChunk(crc, mem, allocs, i + 1);
    }
    if allocs != [] {
      NaiveChunk(crc, mem, allocs, 0);
      NaiveChunk(crc, mem, allocs, |allocs| - 1);
      assert allocs[..|allocs|] == allocs;
    }
  }
}
